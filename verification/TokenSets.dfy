/**
  Token sets as sorted linked lists behind a head node: what the parser's recovery uses to
  decide membership. Elements may occur more than once.
 */
module TokenSets {
  import opened Syntax

  /** The number of a token kind; lists are sorted by it. */
  function KindNumber(k: Kind): int {
    match k
    case nulsym => 1 case identsym => 2 case numbersym => 3 case plussym => 4 case minussym => 5
    case multsym => 6 case slashsym => 7 case oddsym => 8 case eqlsym => 9 case neqsym => 10
    case lessym => 11 case leqsym => 12 case gtrsym => 13 case geqsym => 14 case lparentsym => 15
    case rparentsym => 16 case commasym => 17 case semicolonsym => 18 case periodsym => 19
    case becomessym => 20 case beginsym => 21 case endsym => 22 case ifsym => 23 case thensym => 24
    case whilesym => 25 case dosym => 26 case callsym => 27 case constsym => 28 case varsym => 29
    case procsym => 30 case writesym => 31 case readsym => 32 case elsesym => 33 case commentsym => 34
  }

  /** The kinds in the order of the source's declaration: each has its place for a number. */
  lemma KindsInOrder(k: Kind)
    ensures var kinds := [
              nulsym, identsym, numbersym, plussym, minussym, multsym, slashsym, oddsym, eqlsym, neqsym, lessym, leqsym,
              gtrsym, geqsym, lparentsym, rparentsym, commasym, semicolonsym, periodsym, becomessym, beginsym, endsym,
              ifsym, thensym, whilesym, dosym, callsym, constsym, varsym, procsym, writesym, readsym, elsesym,
              commentsym];
            1 <= KindNumber(k) <= |kinds| && kinds[KindNumber(k) - 1] == k
  {
  }

  lemma KindsDiffer(a: Kind, b: Kind)
    requires KindNumber(a) == KindNumber(b)
    ensures a == b
  {
  }

  ghost predicate Sorted(s: seq<Kind>) {
    forall i, j :: 0 <= i < j < |s| ==> KindNumber(s[i]) <= KindNumber(s[j])
  }

  /** In a sorted list, nothing equal to `e` comes at or behind an element greater than it. */
  lemma PastIt(s: seq<Kind>, i: nat, e: Kind)
    requires Sorted(s) && i <= |s| && (forall j :: 0 <= j < i ==> KindNumber(s[j]) < KindNumber(e))
    requires i < |s| ==> KindNumber(s[i]) >= KindNumber(e)
    ensures e in s <==> i < |s| && s[i] == e
  {
    if e in s {
      var k :| 0 <= k < |s| && s[k] == e;
      assert i <= k;
      KindsDiffer(s[i], e);
    }
  }

  class Node {
    const elem: Kind
    var next: Node?

    constructor (elem: Kind, next: Node?)
      ensures this.elem == elem && this.next == next
    {
      this.elem, this.next := elem, next;
    }
  }

  /** The node at `i`, and null behind the last. */
  function NodeAt(nodes: seq<Node>, i: nat): Node? {
    if i < |nodes| then nodes[i] else null
  }

  /** Different nodes, each linked to the one behind it. */
  ghost predicate Linked(nodes: seq<Node>)
    reads nodes
  {
    && (forall i, j :: 0 <= i < j < |nodes| ==> nodes[i] != nodes[j])
    && (forall i :: 0 <= i < |nodes| ==> nodes[i].next == NodeAt(nodes, i + 1))
  }

  function Elems(nodes: seq<Node>): (s: seq<Kind>)
    ensures |s| == |nodes|
    ensures forall i :: 0 <= i < |s| ==> s[i] == nodes[i].elem
  {
    seq(|nodes|, i requires 0 <= i < |nodes| => nodes[i].elem)
  }

  ghost predicate Within(nodes: seq<Node>, repr: set<object>) {
    forall i :: 0 <= i < |nodes| ==> nodes[i] in repr
  }

  class TokenSet {
    const head: Node
    ghost var nodes: seq<Node>
    ghost var Repr: set<object>

    ghost predicate Valid()
      reads this, nodes
    {
      && this in Repr && Within(nodes, Repr)
      && nodes != [] && nodes[0] == head && Linked(nodes) && Sorted(Elements())
    }

    /** The elements in list order; the head node holds none. */
    ghost function Elements(): seq<Kind>
      reads this
    {
      if nodes == [] then [] else Elems(nodes[1..])
    }

    /** The list without elements. */
    constructor ()
      ensures Valid() && fresh(Repr) && Elements() == [] && nodes == [head]
    {
      head := new Node(nulsym, null);
      nodes := [head];
      Repr := {this, head};
    }

    /** Puts `elem` in front of the first element not smaller. */
    method SetInsert(elem: Kind)
      requires Valid()
      modifies Repr
      ensures Valid() && fresh(Repr - old(Repr)) && multiset(Elements()) == multiset(old(Elements())) + multiset{elem}
    {
      var p, i := FindPlace(elem);
      SortedInsert(Elements(), i, elem);
      var q := new Node(elem, p.next);
      assert p in Repr;
      NodesWithin(nodes, i, q, Repr);
      hide Elems, Sorted, Linked, NodeAt, Within;
      Spliced(nodes, i, q);
      Splice(p, q, i);
    }

    /** Links `q` in behind `p`. */
    method Splice(p: Node, q: Node, ghost i: nat)
      requires i < |nodes| && p == nodes[i] && q !in nodes && q.next == NodeAt(nodes, i + 1) && Linked(nodes)
      modifies this`nodes, this`Repr, p`next
      ensures Repr == old(Repr) + {q}
      ensures nodes == old(nodes)[..i + 1] + [q] + old(nodes)[i + 1..] && Linked(nodes)
    {
      ghost var was := nodes;
      p.next := q;
      nodes, Repr := was[..i + 1] + [q] + was[i + 1..], Repr + {q};
      forall j | 0 <= j < |nodes|
        ensures nodes[j].next == NodeAt(nodes, j + 1)
      {
        if j > i + 1 {
          assert nodes[j] == was[j - 1];
          assert was[j - 1].next == NodeAt(was, j);
        } else if j < i {
          assert nodes[j] == was[j];
          assert was[j].next == NodeAt(was, j + 1);
        }
      }
    }

    /** The last node whose element, if it has one, is smaller than `elem`. */
    method FindPlace(elem: Kind) returns (p: Node, ghost i: nat)
      requires Valid()
      ensures i < |nodes| && p == nodes[i] && p.next == NodeAt(nodes, i + 1)
      ensures forall j :: 0 <= j < i ==> KindNumber(Elements()[j]) < KindNumber(elem)
      ensures i < |Elements()| ==> KindNumber(Elements()[i]) >= KindNumber(elem)
    {
      hide Sorted;
      p := head;
      i := 0;
      while p.next != null && KindNumber(p.next.elem) < KindNumber(elem)
        invariant 0 <= i < |nodes| && p == nodes[i]
        invariant forall j :: 0 <= j < i ==> KindNumber(Elements()[j]) < KindNumber(elem)
        decreases |nodes| - i
      {
        p := p.next;
        i := i + 1;
      }
    }

    /** Membership, looking no further than the first element not smaller. */
    method InSet(elem: Kind) returns (found: bool)
      requires Valid()
      ensures found == (elem in Elements())
    {
      var p, i := FindPlace(elem);
      PastIt(Elements(), i, elem);
      return p.next != null && p.next.elem == elem;
    }

    /** A new last node behind `p`. */
    method Append(p: Node, elem: Kind) returns (q: Node)
      requires Valid() && p == nodes[|nodes| - 1]
      requires forall j :: 0 <= j < |Elements()| ==> KindNumber(Elements()[j]) <= KindNumber(elem)
      modifies Repr
      ensures Valid() && fresh(Repr - old(Repr)) && Elements() == old(Elements()) + [elem] && q == nodes[|nodes| - 1]
    {
      ghost var i := |nodes| - 1;
      SortedAppend(Elements(), elem);
      q := new Node(elem, null);
      assert p in Repr && NodeAt(nodes, i + 1) == null;
      NodesWithin(nodes, i, q, Repr);
      Spliced(nodes, i, q);
      Tail(nodes, i, elem);
      hide Elems, Sorted, Linked, NodeAt, Within;
      Splice(p, q, i);
    }
  }

  lemma SortedAppend(s: seq<Kind>, e: Kind)
    requires Sorted(s) && forall j :: 0 <= j < |s| ==> KindNumber(s[j]) <= KindNumber(e)
    ensures Sorted(s + [e])
  {
  }

  lemma Tail(nodes: seq<Node>, i: nat, e: Kind)
    requires |nodes| == i + 1
    ensures Elems(nodes[1..])[..i] + [e] + Elems(nodes[1..])[i..] == Elems(nodes[1..]) + [e]
  {
  }

  // ---------- making sets ----------

  /** The tokens before the first nulsym. */
  function UpToNul(list: seq<Kind>): seq<Kind> {
    if list == [] || list[0] == nulsym then [] else [list[0]] + UpToNul(list[1..])
  }

  /** The set of the tokens listed, the list ending with nulsym. */
  method CreateSet(list: seq<Kind>) returns (s: TokenSet)
    requires nulsym in list
    ensures s.Valid() && fresh(s.Repr) && multiset(s.Elements()) == multiset(UpToNul(list))
  {
    hide Linked, Sorted, Within, UpToNul, Elems;
    s := new TokenSet();
    var i := 0;
    assert list[0..] == list;
    while list[i] != nulsym
      invariant 0 <= i < |list| && nulsym in list[i..]
      invariant s.Valid() && fresh(s.Repr)
      invariant multiset(s.Elements()) + multiset(UpToNul(list[i..])) == multiset(UpToNul(list))
      decreases |list| - i
    {
      UpToNulStep(list, i);
      s.SetInsert(list[i]);
      i := i + 1;
    }
    UpToNulEnd(list, i);
  }

  lemma UpToNulStep(list: seq<Kind>, i: nat)
    requires i < |list| && list[i] != nulsym && nulsym in list[i..]
    ensures i + 1 < |list| && nulsym in list[i + 1..]
    ensures multiset(UpToNul(list[i..])) == multiset{list[i]} + multiset(UpToNul(list[i + 1..]))
  {
    assert list[i..][0] == list[i] && list[i..][1..] == list[i + 1..];
    assert list[i..] == [list[i]] + list[i + 1..];
  }

  lemma UpToNulEnd(list: seq<Kind>, i: nat)
    requires i < |list| && list[i] == nulsym
    ensures UpToNul(list[i..]) == []
  {
  }

  /** The set of the elements of both, by merging; the arguments stay as they are. */
  method UniteSet(s1: TokenSet, s2: TokenSet) returns (s: TokenSet)
    requires s1.Valid() && s2.Valid()
    ensures s.Valid() && fresh(s.Repr)
    ensures multiset(s.Elements()) == multiset(s1.Elements()) + multiset(s2.Elements())
    ensures forall k :: k in s.Elements() <==> k in s1.Elements() || k in s2.Elements()
  {
    hide Linked, Sorted, Within, NodeAt, Elems, MergePoint, KindNumber;
    ghost var e1, e2 := s1.Elements(), s2.Elements();
    var p: Node;
    var p1: Node?;
    var p2: Node?;
    ghost var i: nat;
    ghost var j: nat;
    s, p, p1, p2, i, j := MergeWhileBoth(s1, s2);
    MergeRest(s, p, s1, p1, e1, i, s2, p2, e2, j);
    SameMembers(s.Elements(), e1, e2);
  }

  /** What is left of one list, once the other has been read to its end. */
  method MergeRest(s: TokenSet, p: Node, s1: TokenSet, p1: Node?, ghost e1: seq<Kind>, ghost i: nat,
                   s2: TokenSet, p2: Node?, ghost e2: seq<Kind>, ghost j: nat)
    requires MergePoint(s, p, s1, p1, e1, i, s2, p2, e2, j) && (p1 == null || p2 == null)
    modifies s.Repr
    ensures s.Valid() && fresh(s.Repr - old(s.Repr))
    ensures multiset(s.Elements()) == multiset(e1) + multiset(e2)
  {
    hide Linked, Sorted, Within, NodeAt, Elems, Reading, Apart, Merging, KindNumber;
    ghost var done := s.Elements();
    MergeBound(done, e1, i, e2, j);
    if p2 != null {
      ReadEnd(s1, e1, i);
      CopyRest(s, p, s2, p2, e2, j);
    } else {
      ReadEnd(s2, e2, j);
      CopyRest(s, p, s1, p1, e1, i);
    }
    MergeEnd(done, e1, i, e2, j);
  }

  /** The merging loop, up to the end of one of the lists. */
  method MergeWhileBoth(s1: TokenSet, s2: TokenSet)
    returns (s: TokenSet, p: Node, p1: Node?, p2: Node?, ghost i: nat, ghost j: nat)
    requires s1.Valid() && s2.Valid()
    ensures fresh(s.Repr) && MergePoint(s, p, s1, p1, s1.Elements(), i, s2, p2, s2.Elements(), j)
    ensures p1 == null || p2 == null
  {
    hide Linked, Sorted, Within, NodeAt, Elems, MergePoint;
    s := new TokenSet();
    p := s.head;
    p1, p2 := s1.head.next, s2.head.next;
    ghost var e1, e2 := s1.Elements(), s2.Elements();
    i, j := 0, 0;
    MergeStart(s, s1, s2);
    while p1 != null && p2 != null
      invariant fresh(s.Repr) && i <= |e1| && j <= |e2|
      invariant MergePoint(s, p, s1, p1, e1, i, s2, p2, e2, j)
      decreases |e1| - i + |e2| - j
    {
      p, p1, p2, i, j := MergeTurn(s, p, s1, p1, e1, i, s2, p2, e2, j);
    }
    MergeSame(s, p, s1, p1, e1, i, s2, p2, e2, j);
  }

  /** Where a merge is: `p` is the last node of `s`, `p1` and `p2` are the nodes next in turn. */
  ghost predicate MergePoint(s: TokenSet, p: Node, s1: TokenSet, p1: Node?, e1: seq<Kind>, i: nat,
                             s2: TokenSet, p2: Node?, e2: seq<Kind>, j: nat)
    reads s, s.nodes, s1, s1.nodes, s2, s2.nodes
  {
    && s.Valid() && p == s.nodes[|s.nodes| - 1] && Apart(s1, s) && Apart(s2, s)
    && Reading(s1, p1, e1, i) && Reading(s2, p2, e2, j)
    && Merging(s.Elements(), e1, i, e2, j)
  }

  lemma MergeStart(s: TokenSet, s1: TokenSet, s2: TokenSet)
    requires s1.Valid() && s2.Valid() && s.Valid() && s.nodes == [s.head]
    requires Apart(s1, s) && Apart(s2, s)
    ensures MergePoint(s, s.head, s1, s1.head.next, s1.Elements(), 0, s2, s2.head.next, s2.Elements(), 0)
  {
    ReadStart(s1, s);
    ReadStart(s2, s);
    StartMerge(s1.Elements(), s2.Elements());
  }

  lemma MergeSame(s: TokenSet, p: Node, s1: TokenSet, p1: Node?, e1: seq<Kind>, i: nat,
                  s2: TokenSet, p2: Node?, e2: seq<Kind>, j: nat)
    requires MergePoint(s, p, s1, p1, e1, i, s2, p2, e2, j)
    ensures e1 == s1.Elements() && e2 == s2.Elements()
  {
    hide Linked, Sorted, Within, NodeAt, Elems, Apart, Merging;
  }

  /** One turn of the merging loop: the smaller of the two elements next in turn is copied. */
  method MergeTurn(s: TokenSet, p: Node, s1: TokenSet, p1: Node, ghost e1: seq<Kind>, ghost i: nat,
                   s2: TokenSet, p2: Node, ghost e2: seq<Kind>, ghost j: nat)
    returns (p': Node, p1': Node?, p2': Node?, ghost i': nat, ghost j': nat)
    requires MergePoint(s, p, s1, p1, e1, i, s2, p2, e2, j)
    modifies s.Repr
    ensures fresh(s.Repr - old(s.Repr))
    ensures MergePoint(s, p', s1, p1', e1, i', s2, p2', e2, j')
    ensures i <= i' <= |e1| && j <= j' <= |e2| && i' + j' == i + j + 1
  {
    hide Linked, Sorted, Within, NodeAt, Elems, Reading, Apart, Merging, KindNumber;
    p1', p2', i', j' := p1, p2, i, j;
    ReadNext(s1, p1, e1, i);
    ReadNext(s2, p2, e2, j);
    MergeBound(s.Elements(), e1, i, e2, j);
    MergeStep(s.Elements(), e1, i, e2, j);
    if KindNumber(p1.elem) < KindNumber(p2.elem) {
      p', p1' := TakeNode(s, p, s1, p1, e1, i, s2, p2, e2, j);
      i' := i + 1;
    } else {
      p', p2' := TakeNode(s, p, s2, p2, e2, j, s1, p1, e1, i);
      j' := j + 1;
    }
  }

  /** Nodes of `t` are none of `s`. */
  ghost predicate Apart(t: TokenSet, s: TokenSet)
    reads t, s
  {
    t !in s.Repr && forall k :: 0 <= k < |t.nodes| ==> t.nodes[k] !in s.Repr
  }

  /** Copies the next element of `t` behind `p`, and moves on in `t`; another list being read stays. */
  method TakeNode(s: TokenSet, p: Node, t: TokenSet, q: Node, ghost e: seq<Kind>, ghost i: nat,
                  ghost u: TokenSet, ghost r: Node?, ghost f: seq<Kind>, ghost j: nat)
    returns (p': Node, q': Node?)
    requires s.Valid() && p == s.nodes[|s.nodes| - 1] && Apart(t, s) && Apart(u, s)
    requires Reading(t, q, e, i) && Reading(u, r, f, j) && i < |e|
    requires forall k :: 0 <= k < |s.Elements()| ==> KindNumber(s.Elements()[k]) <= KindNumber(e[i])
    modifies s.Repr
    ensures s.Valid() && fresh(s.Repr - old(s.Repr)) && p' == s.nodes[|s.nodes| - 1] && Apart(t, s) && Apart(u, s)
    ensures Reading(t, q', e, i + 1) && Reading(u, r, f, j) && s.Elements() == old(s.Elements()) + [e[i]]
  {
    hide Linked, Sorted, Within, NodeAt, Elems;
    ReadNext(t, q, e, i);
    var elem := q.elem;
    q' := q.next;
    p' := s.Append(p, elem);
  }

  /** Copies what is left of the longer list. */
  method CopyRest(s: TokenSet, p0: Node, t: TokenSet, p1: Node?, ghost e: seq<Kind>, ghost i0: nat)
    requires s.Valid() && p0 == s.nodes[|s.nodes| - 1]
    requires Reading(t, p1, e, i0) && Apart(t, s) && i0 <= |e|
    requires forall k :: 0 <= k < |s.Elements()| && i0 < |e| ==> KindNumber(s.Elements()[k]) <= KindNumber(e[i0])
    modifies s.Repr
    ensures s.Valid() && fresh(s.Repr - old(s.Repr)) && s.Elements() == old(s.Elements()) + e[i0..]
  {
    hide Linked, Sorted, Within, NodeAt, Elems, Reading, Apart, Copied, KindNumber;
    ghost var was := s.Elements();
    CopiedNone(was, e, i0);
    var p, q := p0, p1;
    ghost var i := i0;
    while q != null
      invariant s.Valid() && fresh(s.Repr - old(s.Repr)) && p == s.nodes[|s.nodes| - 1]
      invariant i0 <= i <= |e| && Reading(t, q, e, i) && Apart(t, s)
      invariant Copied(s.Elements(), was, e, i0, i)
      decreases |e| - i
    {
      ReadNext(t, q, e, i);
      CopiedNext(s.Elements(), was, e, i0, i);
      p, q := TakeNode(s, p, t, q, e, i, t, q, e, i);
      i := i + 1;
    }
    ReadEnd(t, e, i);
    CopiedAll(s.Elements(), was, e, i0);
  }

  /** Elements `i0` to `i` of a sorted list have been copied behind `was`, and what comes next is no smaller. */
  ghost predicate Copied(s: seq<Kind>, was: seq<Kind>, e: seq<Kind>, i0: nat, i: nat) {
    && i0 <= i <= |e| && s == was + e[i0..i]
    && forall k :: 0 <= k < |s| && i < |e| ==> KindNumber(s[k]) <= KindNumber(e[i])
  }

  lemma CopiedNone(was: seq<Kind>, e: seq<Kind>, i0: nat)
    requires i0 <= |e| && forall k :: 0 <= k < |was| && i0 < |e| ==> KindNumber(was[k]) <= KindNumber(e[i0])
    ensures Copied(was, was, e, i0, i0)
  {
  }

  lemma CopiedNext(s: seq<Kind>, was: seq<Kind>, e: seq<Kind>, i0: nat, i: nat)
    requires Copied(s, was, e, i0, i) && i < |e| && Sorted(e)
    ensures Copied(s + [e[i]], was, e, i0, i + 1)
    ensures forall k :: 0 <= k < |s| ==> KindNumber(s[k]) <= KindNumber(e[i])
  {
    assert e[i0..i + 1] == e[i0..i] + [e[i]];
  }

  lemma CopiedAll(s: seq<Kind>, was: seq<Kind>, e: seq<Kind>, i0: nat)
    requires Copied(s, was, e, i0, |e|)
    ensures s == was + e[i0..]
  {
  }

  /** Where a walk along `t` is: at the node of element `i`, or at the end. */
  ghost predicate Reading(t: TokenSet, p: Node?, e: seq<Kind>, i: nat)
    reads t, t.nodes
  {
    t.Valid() && t.Elements() == e && i <= |e| && p == NodeAt(t.nodes, i + 1)
  }

  lemma ReadStart(t: TokenSet, s: TokenSet)
    requires t.Valid() && t !in s.Repr && (forall k :: 0 <= k < |t.nodes| ==> t.nodes[k] !in s.Repr)
    ensures Reading(t, t.head.next, t.Elements(), 0) && Apart(t, s)
  {
  }

  lemma ReadNext(t: TokenSet, p: Node, e: seq<Kind>, i: nat)
    requires Reading(t, p, e, i)
    ensures i < |e| && p.elem == e[i] && Reading(t, p.next, e, i + 1) && Sorted(e)
  {
  }

  lemma ReadEnd(t: TokenSet, e: seq<Kind>, i: nat)
    requires Reading(t, null, e, i)
    ensures i == |e|
  {
  }

  /** Everything read so far is in `s`, and nothing in `s` is greater than what is still to come. */
  ghost predicate Merging(s: seq<Kind>, e1: seq<Kind>, i: nat, e2: seq<Kind>, j: nat) {
    && i <= |e1| && j <= |e2|
    && multiset(s) + multiset(e1[i..]) + multiset(e2[j..]) == multiset(e1) + multiset(e2)
    && (forall k :: 0 <= k < |s| ==>
          && (i < |e1| ==> KindNumber(s[k]) <= KindNumber(e1[i]))
          && (j < |e2| ==> KindNumber(s[k]) <= KindNumber(e2[j])))
  }

  lemma StartMerge(e1: seq<Kind>, e2: seq<Kind>)
    ensures Merging([], e1, 0, e2, 0)
  {
    assert e1[0..] == e1 && e2[0..] == e2;
  }

  lemma MergeBound(s: seq<Kind>, e1: seq<Kind>, i: nat, e2: seq<Kind>, j: nat)
    requires Merging(s, e1, i, e2, j)
    ensures i <= |e1| && j <= |e2|
    ensures forall k :: 0 <= k < |s| && i < |e1| ==> KindNumber(s[k]) <= KindNumber(e1[i])
    ensures forall k :: 0 <= k < |s| && j < |e2| ==> KindNumber(s[k]) <= KindNumber(e2[j])
  {
  }

  /** Once one list has been read to its end, the rest of the other follows. */
  lemma MergeEnd(s: seq<Kind>, e1: seq<Kind>, i: nat, e2: seq<Kind>, j: nat)
    requires Merging(s, e1, i, e2, j) && (i == |e1| || j == |e2|)
    ensures multiset(s + if i == |e1| then e2[j..] else e1[i..]) == multiset(e1) + multiset(e2)
  {
  }

  /** The smaller of the two next elements can be taken. */
  lemma MergeStep(s: seq<Kind>, e1: seq<Kind>, i: nat, e2: seq<Kind>, j: nat)
    requires Merging(s, e1, i, e2, j) && (i < |e1| ==> Sorted(e1)) && (j < |e2| ==> Sorted(e2))
    ensures i < |e1| && (j < |e2| ==> KindNumber(e1[i]) < KindNumber(e2[j])) ==> Merging(s + [e1[i]], e1, i + 1, e2, j)
    ensures j < |e2| && (i < |e1| ==> KindNumber(e2[j]) <= KindNumber(e1[i])) ==> Merging(s + [e2[j]], e1, i, e2, j + 1)
  {
    if i < |e1| {
      assert e1[i..] == [e1[i]] + e1[i + 1..];
    }
    if j < |e2| {
      assert e2[j..] == [e2[j]] + e2[j + 1..];
    }
  }

  lemma SameMembers(s: seq<Kind>, a: seq<Kind>, b: seq<Kind>)
    requires multiset(s) == multiset(a) + multiset(b)
    ensures forall k :: k in s <==> k in a || k in b
  {
    forall k
      ensures k in s <==> k in a || k in b
    {
      assert k in s <==> k in multiset(s);
      assert k in a <==> k in multiset(a);
      assert k in b <==> k in multiset(b);
    }
  }

  lemma SortedInsert(s: seq<Kind>, i: nat, e: Kind)
    requires Sorted(s) && i <= |s| && (forall j :: 0 <= j < i ==> KindNumber(s[j]) < KindNumber(e))
    requires i < |s| ==> KindNumber(s[i]) >= KindNumber(e)
    ensures Sorted(s[..i] + [e] + s[i..])
  {
    var t := s[..i] + [e] + s[i..];
    forall j, k | 0 <= j < k < |t|
      ensures KindNumber(t[j]) <= KindNumber(t[k])
    {
      if i < j {
        assert t[j] == s[j - 1] && t[k] == s[k - 1];
      } else if i < k {
        assert t[k] == s[k - 1];
      }
    }
  }

  lemma NodesWithin(nodes: seq<Node>, i: nat, q: Node, repr: set<object>)
    requires i < |nodes| && Within(nodes, repr)
    ensures Within(nodes[..i + 1] + [q] + nodes[i + 1..], repr + {q})
    ensures q !in repr ==> q !in nodes
  {
  }

  lemma Spliced(nodes: seq<Node>, i: nat, q: Node)
    requires i < |nodes|
    ensures var all := nodes[..i + 1] + [q] + nodes[i + 1..];
            && all != [] && all[0] == nodes[0]
            && Elems(all[1..]) == Elems(nodes[1..])[..i] + [q.elem] + Elems(nodes[1..])[i..]
            && multiset(Elems(all[1..])) == multiset(Elems(nodes[1..])) + multiset{q.elem}
  {
    var s := Elems(nodes[1..]);
    assert s == s[..i] + s[i..];
  }
}
