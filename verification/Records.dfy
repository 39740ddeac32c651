/**
  How the records of the source semantics lie in the machine's stack, and the facts about
  that layout that loads, stores, calls and returns rely on.
 */
module Records {
  import opened Common
  import opened Machine
  import opened Syntax
  import opened Symbols
  import opened Semantics

  /** First stack cell of record `i`; the records follow each other from cell 1. */
  function BaseOf(frames: seq<Frame>, i: nat): nat
    requires i <= |frames|
  {
    1 + Height(frames[..i])
  }

  /** Record `i`: its links and return address, and its assigned variables. */
  ghost predicate FrameAt(frames: seq<Frame>, ras: seq<int>, stack: seq<int>, i: nat)
    requires i < |frames| == |ras|
    requires Height(frames) < |stack|
    requires LinksDown(frames)
  {
    var b := BaseOf(frames, i);
    BaseBound(frames, i);
    && (i > 0 ==>
          && stack[b + 1] == BaseOf(frames, frames[i].link)
          && stack[b + 2] == BaseOf(frames, i - 1)
          && stack[b + 3] == ras[i])
    && (forall k :: 0 <= k < |frames[i].vars| && frames[i].vars[k].Some? ==>
          stack[b + HEADER + k] == frames[i].vars[k].value)
  }

  /** Static links point to older records. */
  ghost predicate LinksDown(frames: seq<Frame>) {
    forall i :: 0 < i < |frames| ==> frames[i].link < i
  }

  /** The stack holds exactly the records `frames`, entered with return addresses `ras`. */
  ghost predicate Laid(frames: seq<Frame>, ras: seq<int>, stack: seq<int>) {
    && 0 < |frames| == |ras|
    && Height(frames) < |stack| == MAX_STACK_HEIGHT
    && LinksDown(frames)
    && forall i :: 0 <= i < |frames| ==> FrameAt(frames, ras, stack, i)
  }

  /**
    The machine is between two instructions of the body of the top record. One record more can
    be live than the machine has trace entries for; it is the one that cannot return. Where sp
    is does not matter until the next call.
   */
  ghost predicate InBody(frames: seq<Frame>, ras: seq<int>, s: State) {
    && Laid(frames, ras, s.stack)
    && |s.regs| == COMMON_REGISTER_NUMBER
    && |frames| <= MAX_LEXI_LEVELS + 1
    && s.frameLevel == |frames| - 1
    && s.bp == BaseOf(frames, |frames| - 1)
  }

  // ---------- heights ----------

  lemma {:induction false} HeightStep(frames: seq<Frame>, i: nat)
    requires i < |frames|
    ensures BaseOf(frames, i + 1) == BaseOf(frames, i) + HEADER + |frames[i].vars|
  {
    assert frames[..i + 1][..i] == frames[..i];
  }

  lemma {:induction false} BaseApart(frames: seq<Frame>, i: nat, j: nat)
    requires i < j <= |frames|
    ensures BaseOf(frames, i) + HEADER + |frames[i].vars| <= BaseOf(frames, j)
    decreases j
  {
    HeightStep(frames, j - 1);
    if i < j - 1 {
      BaseApart(frames, i, j - 1);
    }
  }

  lemma {:induction false} BaseBound(frames: seq<Frame>, i: nat)
    requires i < |frames|
    ensures BaseOf(frames, i) + HEADER + |frames[i].vars| <= Height(frames) + 1
  {
    BaseApart(frames, i, |frames|);
    assert frames[..|frames|] == frames;
  }

  /** Two lists of records of the same sizes and links. */
  ghost predicate SameShape(a: seq<Frame>, b: seq<Frame>) {
    && |a| == |b|
    && forall i :: 0 <= i < |a| ==> a[i].proc == b[i].proc && a[i].link == b[i].link && |a[i].vars| == |b[i].vars|
  }

  lemma {:induction false} SameHeight(a: seq<Frame>, b: seq<Frame>)
    requires SameShape(a, b)
    ensures Height(a) == Height(b)
    decreases |a|
  {
    if a != [] {
      SameHeight(a[..|a| - 1], b[..|b| - 1]);
    }
  }

  lemma {:induction false} SameBase(a: seq<Frame>, b: seq<Frame>, i: nat)
    requires SameShape(a, b) && i <= |a|
    ensures BaseOf(a, i) == BaseOf(b, i)
  {
    SameHeight(a[..i], b[..i]);
  }

  lemma {:induction false} BasePrefix(frames: seq<Frame>, n: nat, i: nat)
    requires i <= n <= |frames|
    ensures BaseOf(frames[..n], i) == BaseOf(frames, i)
  {
    assert frames[..n][..i] == frames[..i];
  }

  // ---------- static chain ----------

  /** The machine's walk along `a + b` static links is the walk along `a` and then along `b`. */
  lemma {:induction false} BaseAdd(stack: seq<int>, a: nat, b: nat, bp: int)
    ensures Base(stack, a + b, bp) ==
            match Base(stack, a, bp) case None => None case Some(base) => Base(stack, b, base)
    decreases a
  {
    if a > 0 && 0 <= bp + 1 < |stack| {
      BaseAdd(stack, a - 1, b, stack[bp + 1]);
    }
  }

  /** The machine's walk along static links ends at the base of the record the source walk ends at. */
  lemma {:induction false} BaseHop(frames: seq<Frame>, ras: seq<int>, stack: seq<int>, i: nat, k: int)
    requires Laid(frames, ras, stack) && i < |frames|
    requires Hop(frames, i, k).Some?
    ensures Hop(frames, i, k).value <= i
    ensures Base(stack, k, BaseOf(frames, i)) == Some(BaseOf(frames, Hop(frames, i, k).value))
    decreases k
  {
    if k > 0 {
      assert FrameAt(frames, ras, stack, i);
      BaseBound(frames, i);
      BaseHop(frames, ras, stack, frames[i].link, k - 1);
    }
  }

  /** Where a located variable lies. */
  lemma LocateAddress(frames: seq<Frame>, ras: seq<int>, stack: seq<int>, hops: int, addr: int)
    requires Laid(frames, ras, stack)
    requires Locate(frames, hops, addr).Some?
    ensures var (j, k) := Locate(frames, hops, addr).value;
            && BaseOf(frames, j) + HEADER + k <= Height(frames)
            && Address(stack, hops, BaseOf(frames, |frames| - 1), addr) == Some(BaseOf(frames, j) + HEADER + k)
  {
    BaseHop(frames, ras, stack, |frames| - 1, hops);
    BaseBound(frames, Locate(frames, hops, addr).value.0);
  }

  /** A load finds the value of the variable. */
  lemma ReadLaid(frames: seq<Frame>, ras: seq<int>, stack: seq<int>, hops: int, addr: int)
    requires Laid(frames, ras, stack)
    requires ReadVar(frames, hops, addr).Val?
    ensures var a := Address(stack, hops, BaseOf(frames, |frames| - 1), addr);
            a.Some? && stack[a.value] == ReadVar(frames, hops, addr).v
  {
    LocateAddress(frames, ras, stack, hops, addr);
    var (j, k) := Locate(frames, hops, addr).value;
    assert FrameAt(frames, ras, stack, j);
  }

  lemma {:induction false} WriteFrameAt(frames: seq<Frame>, ras: seq<int>, stack: seq<int>, j: nat, k: nat, v: int,
                                        i: nat)
    requires Laid(frames, ras, stack)
    requires i < |frames| && j < |frames| && k < |frames[j].vars|
    requires BaseOf(frames, j) + HEADER + k < |stack|
    ensures var frames' := SetVar(frames, j, k, v);
            && LinksDown(frames') && Height(frames') == Height(frames)
            && FrameAt(frames', ras, stack[BaseOf(frames, j) + HEADER + k := v], i)
  {
    var frames' := SetVar(frames, j, k, v);
    SameHeight(frames, frames');
    assert FrameAt(frames, ras, stack, i);
    SameBase(frames, frames', i);
    BaseBound(frames, i);
    if i > 0 {
      SameBase(frames, frames', i - 1);
      SameBase(frames, frames', frames[i].link);
    }
    if i < j {
      BaseApart(frames, i, j);
    } else if j < i {
      BaseApart(frames, j, i);
    }
  }

  /** A store changes that variable and nothing else of any record. */
  lemma WriteLaid(frames: seq<Frame>, ras: seq<int>, stack: seq<int>, j: nat, k: nat, v: int)
    requires Laid(frames, ras, stack)
    requires j < |frames| && k < |frames[j].vars|
    ensures BaseOf(frames, j) + HEADER + k < |stack|
    ensures Laid(SetVar(frames, j, k, v), ras, stack[BaseOf(frames, j) + HEADER + k := v])
  {
    BaseBound(frames, j);
    var frames' := SetVar(frames, j, k, v);
    var stack' := stack[BaseOf(frames, j) + HEADER + k := v];
    SameHeight(frames, frames');
    forall i | 0 <= i < |frames'|
      ensures FrameAt(frames', ras, stack', i)
    {
      WriteFrameAt(frames, ras, stack, j, k, v, i);
    }
  }

  /** Writing above the records leaves them alone. */
  lemma LaidAbove(frames: seq<Frame>, ras: seq<int>, stack: seq<int>, stack': seq<int>)
    requires Laid(frames, ras, stack)
    requires |stack'| == |stack|
    requires forall a :: 0 <= a <= Height(frames) ==> stack'[a] == stack[a]
    ensures Laid(frames, ras, stack')
  {
    forall i | 0 <= i < |frames|
      ensures FrameAt(frames, ras, stack', i)
    {
      assert FrameAt(frames, ras, stack, i);
      BaseBound(frames, i);
    }
  }

  lemma {:induction false} PrefixBase(frames: seq<Frame>, f: Frame, i: nat)
    requires i <= |frames|
    ensures BaseOf(frames + [f], i) == BaseOf(frames, i)
  {
    assert (frames + [f])[..i] == frames[..i];
  }

  lemma {:induction false} PushOld(frames: seq<Frame>, ras: seq<int>, stack: seq<int>, f: Frame, ra: int, i: nat)
    requires Laid(frames, ras, stack)
    requires LinksDown(frames + [f]) && Height(frames + [f]) < |stack|
    requires i < |frames|
    ensures FrameAt(frames + [f], ras + [ra], stack, i)
  {
    assert FrameAt(frames, ras, stack, i);
    PrefixBase(frames, f, i);
    if i > 0 {
      PrefixBase(frames, f, frames[i].link);
      PrefixBase(frames, f, i - 1);
    }
    assert (frames + [f])[i] == frames[i] && (ras + [ra])[i] == ras[i];
  }

  lemma {:induction false} PushTop(frames: seq<Frame>, ras: seq<int>, stack: seq<int>, f: Frame, ra: int)
    requires 0 < |frames| == |ras|
    requires LinksDown(frames) && f.link < |frames|
    requires Header(frames, f, ra, stack)
    ensures Height(frames + [f]) == Height(frames) + HEADER + |f.vars|
    ensures BaseOf(frames + [f], |frames|) == Height(frames) + 1
    ensures LinksDown(frames + [f])
    ensures FrameAt(frames + [f], ras + [ra], stack, |frames|)
  {
    assert (frames + [f])[..|frames|] == frames;
    assert forall i :: 0 < i < |frames| ==> (frames + [f])[i] == frames[i];
    PrefixBase(frames, f, f.link);
    PrefixBase(frames, f, |frames| - 1);
  }

  /** Above the records `frames` lies the header of a record `f` with no variable assigned yet. */
  ghost predicate Header(frames: seq<Frame>, f: Frame, ra: int, stack: seq<int>)
    requires f.link < |frames|
  {
    var sp := Height(frames);
    && (forall k :: 0 <= k < |f.vars| ==> f.vars[k] == None)
    && sp + HEADER + |f.vars| < |stack|
    && stack[sp + 2] == BaseOf(frames, f.link)
    && stack[sp + 3] == BaseOf(frames, |frames| - 1)
    && stack[sp + 4] == ra
  }

  /** Pushing a record whose header has been written above the old ones. */
  lemma PushLaid(frames: seq<Frame>, ras: seq<int>, stack: seq<int>, f: Frame, ra: int)
    requires Laid(frames, ras, stack)
    requires f.link < |frames|
    requires Header(frames, f, ra, stack)
    ensures Height(frames + [f]) == Height(frames) + HEADER + |f.vars|
    ensures BaseOf(frames + [f], |frames|) == Height(frames) + 1
    ensures Laid(frames + [f], ras + [ra], stack)
  {
    PushTop(frames, ras, stack, f, ra);
    forall i | 0 <= i < |frames|
      ensures FrameAt(frames + [f], ras + [ra], stack, i)
    {
      PushOld(frames, ras, stack, f, ra, i);
    }
  }

  /** Dropping the top record leaves the others laid out as they were. */
  lemma PopLaid(frames: seq<Frame>, ras: seq<int>, stack: seq<int>)
    requires Laid(frames, ras, stack) && |frames| > 1
    ensures var n := |frames| - 1;
            && Height(frames[..n]) == BaseOf(frames, n) - 1
            && BaseOf(frames[..n], n - 1) == BaseOf(frames, n - 1)
            && Laid(frames[..n], ras[..n], stack)
  {
    var n := |frames| - 1;
    var frames', ras' := frames[..n], ras[..n];
    BasePrefix(frames, n, n - 1);
    forall i | 0 <= i < n
      ensures FrameAt(frames', ras', stack, i)
    {
      assert FrameAt(frames, ras, stack, i);
      BaseBound(frames', i);
      BasePrefix(frames, n, i);
      if i > 0 {
        BasePrefix(frames, n, frames[i].link);
        BasePrefix(frames, n, i - 1);
      }
    }
  }

  /** Storing through a located address keeps the machine inside the same bodies. */
  lemma WriteInBody(frames: seq<Frame>, ras: seq<int>, s: State, hops: int, addr: int, v: int)
    requires InBody(frames, ras, s)
    requires Locate(frames, hops, addr).Some?
    ensures var (j, k) := Locate(frames, hops, addr).value;
            var a := Address(s.stack, hops, s.bp, addr);
            && a.Some?
            && SameShape(frames, SetVar(frames, j, k, v))
            && InBody(SetVar(frames, j, k, v), ras, s.(stack := s.stack[a.value := v]))
  {
    var (j, k) := Locate(frames, hops, addr).value;
    var frames' := SetVar(frames, j, k, v);
    LocateAddress(frames, ras, s.stack, hops, addr);
    WriteLaid(frames, ras, s.stack, j, k, v);
    SameHeight(frames, frames');
    SameBase(frames, frames', |frames'| - 1);
  }

  /** The stack CAL leaves: the header of the new record written above sp. */
  function CallStack(stack: seq<int>, sp: int, link: int, bp: int, ra: int): (r: seq<int>)
    requires 0 <= sp && sp + 4 < |stack|
    ensures |r| == |stack|
  {
    stack[sp + 1 := 0][sp + 2 := link][sp + 3 := bp][sp + 4 := ra]
  }

  /** CAL finds the static link and writes the header without touching a live record. */
  lemma CallHeader(frames: seq<Frame>, ras: seq<int>, s: State, hops: int, ra: int, f: Frame)
    requires InBody(frames, ras, s) && s.sp == Height(frames)
    requires Hop(frames, |frames| - 1, hops) == Some(f.link)
    requires forall k :: 0 <= k < |f.vars| ==> f.vars[k] == None
    requires Height(frames) + HEADER + |f.vars| < MAX_STACK_HEIGHT
    ensures f.link < |frames|
    ensures Base(s.stack[s.sp + 1 := 0], hops, s.bp) == Some(BaseOf(frames, f.link))
    ensures var stack := CallStack(s.stack, s.sp, BaseOf(frames, f.link), s.bp, ra);
            Laid(frames, ras, stack) && Header(frames, f, ra, stack)
  {
    var zeroed := s.stack[s.sp + 1 := 0];
    LaidAbove(frames, ras, s.stack, zeroed);
    BaseHop(frames, ras, zeroed, |frames| - 1, hops);
    LaidAbove(frames, ras, s.stack, CallStack(s.stack, s.sp, BaseOf(frames, f.link), s.bp, ra));
  }
}
