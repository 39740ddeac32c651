/** Which addresses and symbols the declarations leave behind. */
module Offsets {
  import opened Common
  import opened Machine
  import opened Syntax
  import opened Symbols
  import opened Semantics
  import opened Programs
  import opened Scope
  import opened Room

  // ---------- the addresses entered ----------

  /** The symbols of a block's own variables, in order, when its level's offset is `o` on entry. */
  function VarSymbols(d: Decls, level: int, o: int): (r: seq<Symbol>)
    ensures |r| == VarCount(d)
    ensures forall i :: 0 <= i < |r| ==> r[i] == Symbol(VarNames(d)[i], VAR, 0, level, o + i)
  {
    match d
    case NoDecls => []
    case ConstDecl(_, _, next) => VarSymbols(next, level, o)
    case VarDecl(x, next) => [Symbol(x, VAR, 0, level, o)] + VarSymbols(next, level, o + 1)
    case ProcDecl(_, _, next) => VarSymbols(next, level, o)
  }

  /** The table has a declaration that it cannot tell from `s`. */
  predicate Entered(t: Table, s: Symbol) {
    Contains(Bucket(t, Hash(s.name)), s)
  }

  lemma PutHolds(t: Table, s: Symbol, u: Symbol)
    ensures |PutSymbol(t, s)| < NUMS_BUCKET ==> Entered(PutSymbol(t, s), s) && |t| < NUMS_BUCKET
    ensures Entered(t, u) ==> Entered(PutSymbol(t, s), u)
  {
    hide Hash;
    var h := Hash(s.name);
    var b := Bucket(t, h);
    if |t| < NUMS_BUCKET && !Contains(b, s) {
      assert (b + [s])[|b|] == s;
      if Entered(t, u) {
        var v := Bucket(t, Hash(u.name));
        var i :| 0 <= i < |v| && Same(v[i], u);
        assert Bucket(PutSymbol(t, s), Hash(u.name))[i] == v[i];
      }
      assert PutSymbol(t, s).Keys == t.Keys + {h};
      PutSize(t, s);
    }
  }

  lemma PutSize(t: Table, s: Symbol)
    ensures |t| <= |PutSymbol(t, s)|
  {
    hide Hash;
    var t' := PutSymbol(t, s);
    assert |t| == |t.Keys| && |t'| == |t'.Keys|;
    CardLess(t.Keys, t'.Keys);
  }

  /** Later declarations take nothing out of the table. */
  lemma {:induction false} StillHolds(d: Decls, level: int, id: nat, s: Counters, u: Symbol)
    requires Entered(s.table, u)
    ensures Entered(ElabDecls(d, level, id, s).0.table, u)
    decreases d
  {
    hide PutSymbol, Entered;
    match d
    case NoDecls =>
    case ConstDecl(x, v, next) =>
      PutHolds(s.table, Symbol(x, CONST, v, level, 0), u);
      StillHolds(next, level, id, s.(table := PutSymbol(s.table, Symbol(x, CONST, v, level, 0))), u);
    case VarDecl(x, next) =>
      if 0 <= level < |s.offsets| {
        var y := Symbol(x, VAR, 0, level, s.offsets[level]);
        PutHolds(s.table, y, u);
        StillHolds(next, level, id, s.(table := PutSymbol(s.table, y),
                                       offsets := s.offsets[level := s.offsets[level] + 1]), u);
      }
    case ProcDecl(x, blk, next) =>
      PutHolds(s.table, Symbol(x, PROC, 0, level, s.procs + 1), u);
      var s1 := Counters(PutSymbol(s.table, Symbol(x, PROC, 0, level, s.procs + 1)), s.offsets, s.procs + 1);
      StillHolds(blk.decls, level + 1, s1.procs, s1, u);
      StillHolds(next, level, id, ElabDecls(blk.decls, level + 1, s1.procs, s1).0, u);
  }

  lemma {:induction false} TableGrows(d: Decls, level: int, id: nat, s: Counters)
    ensures |s.table| <= |ElabDecls(d, level, id, s).0.table|
    decreases d
  {
    hide PutSymbol;
    match d
    case NoDecls =>
    case ConstDecl(x, v, next) =>
      PutSize(s.table, Symbol(x, CONST, v, level, 0));
      TableGrows(next, level, id, s.(table := PutSymbol(s.table, Symbol(x, CONST, v, level, 0))));
    case VarDecl(x, next) =>
      if 0 <= level < |s.offsets| {
        var y := Symbol(x, VAR, 0, level, s.offsets[level]);
        PutSize(s.table, y);
        TableGrows(next, level, id, s.(table := PutSymbol(s.table, y),
                                       offsets := s.offsets[level := s.offsets[level] + 1]));
      }
    case ProcDecl(x, blk, next) =>
      PutSize(s.table, Symbol(x, PROC, 0, level, s.procs + 1));
      var s1 := Counters(PutSymbol(s.table, Symbol(x, PROC, 0, level, s.procs + 1)), s.offsets, s.procs + 1);
      TableGrows(blk.decls, level + 1, s1.procs, s1);
      TableGrows(next, level, id, ElabDecls(blk.decls, level + 1, s1.procs, s1).0);
  }

  /** While the table has a free bucket, variable `i` of a block is entered at its level's offset plus `i`. */
  lemma {:induction false} VarEntered(d: Decls, level: int, id: nat, s: Counters, i: nat)
    requires 0 <= level < |s.offsets| && i < VarCount(d)
    requires |ElabDecls(d, level, id, s).0.table| < NUMS_BUCKET
    ensures Entered(ElabDecls(d, level, id, s).0.table, VarSymbols(d, level, s.offsets[level])[i])
    decreases d
  {
    hide PutSymbol, Entered, VarNames;
    match d
    case NoDecls =>
    case ConstDecl(x, v, next) =>
      VarEntered(next, level, id, s.(table := PutSymbol(s.table, Symbol(x, CONST, v, level, 0))), i);
    case VarDecl(x, next) =>
      var y := Symbol(x, VAR, 0, level, s.offsets[level]);
      var s1 := s.(table := PutSymbol(s.table, y), offsets := s.offsets[level := s.offsets[level] + 1]);
      if i == 0 {
        TableGrows(next, level, id, s1);
        PutHolds(s.table, y, y);
        StillHolds(next, level, id, s1, y);
      } else {
        VarEntered(next, level, id, s1, i - 1);
      }
    case ProcDecl(x, blk, next) =>
      var s1 := Counters(PutSymbol(s.table, Symbol(x, PROC, 0, level, s.procs + 1)), s.offsets, s.procs + 1);
      DeeperKept(blk.decls, level + 1, s1.procs, s1, level);
      VarEntered(next, level, id, ElabDecls(blk.decls, level + 1, s1.procs, s1).0, i);
  }

  /**
    The addresses entered for a block's variables lie in the record its INC makes room for
    exactly when the block has none or finds its level's offset where records start.
   */
  lemma VarsFitExactly(d: Decls, level: int, id: nat, s: Counters)
    requires 0 <= level < |s.offsets| && |ElabDecls(d, level, id, s).0.table| < NUMS_BUCKET
    ensures var syms := VarSymbols(d, level, s.offsets[level]);
            && (forall i :: 0 <= i < |syms| ==> Entered(ElabDecls(d, level, id, s).0.table, syms[i]))
            && ((forall i :: 0 <= i < |syms| ==> HEADER <= syms[i].addr < HEADER + VarCount(d))
                <==> VarCount(d) == 0 || s.offsets[level] == HEADER)
  {
    hide ElabDecls, Entered;
    var syms := VarSymbols(d, level, s.offsets[level]);
    forall i | 0 <= i < |syms| ensures Entered(ElabDecls(d, level, id, s).0.table, syms[i]) {
      VarEntered(d, level, id, s, i);
    }
    if VarCount(d) > 0 {
      assert syms[0].addr == s.offsets[level];
      assert syms[VarCount(d) - 1].addr == s.offsets[level] + VarCount(d) - 1;
    }
  }

  /** A level's offset is never taken back: a block leaves it higher by the number of its variables. */
  lemma {:induction false} OffsetAfter(d: Decls, level: int, id: nat, s: Counters)
    requires 0 <= level < |s.offsets|
    ensures var s' := ElabDecls(d, level, id, s).0;
            |s'.offsets| == |s.offsets| && s'.offsets[level] == s.offsets[level] + VarCount(d)
    decreases d
  {
    hide PutSymbol;
    match d
    case NoDecls =>
    case ConstDecl(x, v, next) =>
      OffsetAfter(next, level, id, s.(table := PutSymbol(s.table, Symbol(x, CONST, v, level, 0))));
    case VarDecl(x, next) =>
      OffsetAfter(next, level, id,
        s.(table := PutSymbol(s.table, Symbol(x, VAR, 0, level, s.offsets[level])),
           offsets := s.offsets[level := s.offsets[level] + 1]));
    case ProcDecl(x, blk, next) =>
      var s1 := Counters(PutSymbol(s.table, Symbol(x, PROC, 0, level, s.procs + 1)), s.offsets, s.procs + 1);
      DeeperKept(blk.decls, level + 1, s1.procs, s1, level);
      OffsetAfter(next, level, id, ElabDecls(blk.decls, level + 1, s1.procs, s1).0);
  }

  lemma {:induction false} DeeperKept(d: Decls, level: int, id: nat, s: Counters, outer: int)
    requires 0 <= outer < level && outer < |s.offsets|
    ensures var s' := ElabDecls(d, level, id, s).0;
            |s'.offsets| == |s.offsets| && s'.offsets[outer] == s.offsets[outer]
    decreases d
  {
    hide PutSymbol;
    match d
    case NoDecls =>
    case ConstDecl(x, v, next) =>
      DeeperKept(next, level, id, s.(table := PutSymbol(s.table, Symbol(x, CONST, v, level, 0))), outer);
    case VarDecl(x, next) =>
      if level < |s.offsets| {
        DeeperKept(next, level, id,
          s.(table := PutSymbol(s.table, Symbol(x, VAR, 0, level, s.offsets[level])),
             offsets := s.offsets[level := s.offsets[level] + 1]), outer);
      }
    case ProcDecl(x, blk, next) =>
      var s1 := Counters(PutSymbol(s.table, Symbol(x, PROC, 0, level, s.procs + 1)), s.offsets, s.procs + 1);
      DeeperKept(blk.decls, level + 1, s1.procs, s1, outer);
      DeeperKept(next, level, id, ElabDecls(blk.decls, level + 1, s1.procs, s1).0, outer);
  }

  /**
    Of two sibling procedures with variables, the second has its last variable entered at an
    address behind its record, by as many cells at least as the first has variables.
   */
  lemma SiblingsClash(x: string, b1: Block, y: string, b2: Block, level: int, s: Counters)
    returns (s2: Counters, v: Symbol)
    requires 0 <= level && level + 1 < |s.offsets| && s.offsets[level + 1] >= HEADER
    requires VarCount(b1.decls) > 0 && VarCount(b2.decls) > 0
    requires var d := ProcDecl(x, b1, ProcDecl(y, b2, NoDecls)); |ElabDecls(d, level, 0, s).0.table| < NUMS_BUCKET
    ensures var d := ProcDecl(x, b1, ProcDecl(y, b2, NoDecls)); s2 == ElabDecls(d, level, 0, s).0
    ensures Entered(s2.table, v)
    ensures v == Symbol(VarNames(b2.decls)[VarCount(b2.decls) - 1], VAR, 0, level + 1, v.addr)
    ensures v.addr >= HEADER + VarCount(b2.decls) + VarCount(b1.decls) - 1
  {
    hide PutSymbol, Entered;
    var s1 := Counters(PutSymbol(s.table, Symbol(x, PROC, 0, level, s.procs + 1)), s.offsets, s.procs + 1);
    OffsetAfter(b1.decls, level + 1, s1.procs, s1);
    var t := ElabDecls(b1.decls, level + 1, s1.procs, s1).0;
    var t1 := Counters(PutSymbol(t.table, Symbol(y, PROC, 0, level, t.procs + 1)), t.offsets, t.procs + 1);
    s2 := ElabDecls(b2.decls, level + 1, t1.procs, t1).0;
    assert ElabDecls(NoDecls, level, 0, s2).0 == s2;
    assert ElabDecls(ProcDecl(y, b2, NoDecls), level, 0, t).0 == s2;
    assert ElabDecls(ProcDecl(x, b1, ProcDecl(y, b2, NoDecls)), level, 0, s).0 == s2;
    var last := VarCount(b2.decls) - 1;
    VarEntered(b2.decls, level + 1, t1.procs, t1, last);
    v := VarSymbols(b2.decls, level + 1, t1.offsets[level + 1])[last];
  }
}
