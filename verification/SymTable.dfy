/** The symbol table in place: an array of buckets, and a circular ring through those in use. */
module SymTable {
  import opened Common
  import opened Symbols

  /** A bucket in use: its symbols in the order they were entered, and its neighbours in the ring. */
  class TableNode {
    const key: string
    const hashValue: int
    var symbols: seq<Symbol>
    var preNode: TableNode?
    var nextNode: TableNode?

    constructor (key: string, hashValue: int)
      ensures this.key == key && this.hashValue == hashValue && symbols == [] && preNode == this && nextNode == this
    {
      this.key, this.hashValue, symbols := key, hashValue, [];
      preNode, nextNode := this, this;
    }

    /** The walk along the list that looks for an equal declaration. */
    method Has(s: Symbol) returns (found: bool)
      ensures found == Contains(symbols, s)
    {
      var i := 0;
      while i < |symbols|
        invariant 0 <= i <= |symbols|
        invariant forall j :: 0 <= j < i ==> !Same(symbols[j], s)
      {
        if Same(symbols[i], s) {
          return true;
        }
        i := i + 1;
      }
      return false;
    }

    /** The walk that keeps the deepest declaration not deeper than `level`, once it has the first. */
    method Best(level: int) returns (best: Option<Symbol>)
      ensures best == Search(symbols, None, level)
    {
      best := None;
      var i := 0;
      assert symbols[0..] == symbols;
      while i < |symbols|
        invariant 0 <= i <= |symbols|
        invariant Search(symbols, None, level) == Search(symbols[i..], best, level)
      {
        var value := symbols[i];
        assert symbols[i..][0] == value && symbols[i..][1..] == symbols[i + 1..];
        match best {
          case None => best := Some(value);
          case Some(b) =>
            if value.level <= level && value.level - level > b.level - level {
              best := Some(value);
            }
        }
        i := i + 1;
      }
    }
  }

  /** The 64-bit hash of a name, reduced to a bucket number. */
  method Hashcode(key: string) returns (h: int)
    ensures h == Hash(key)
  {
    var hash := 5381;
    var i := 0;
    assert key[0..] == key;
    while i < |key|
      invariant 0 <= i <= |key| && HashFrom(5381, key) == HashFrom(hash, key[i..])
    {
      assert key[i..][0] == key[i] && key[i..][1..] == key[i + 1..];
      hash := (hash * 33 + key[i] as int) % WORD;
      i := i + 1;
    }
    return hash % NUMS_BUCKET;
  }

  /** The place behind `i` on a circle of `n`. */
  function After(i: nat, n: nat): (j: nat)
    requires i < n
    ensures j < n
  {
    if i + 1 < n then i + 1 else 0
  }

  function Before(i: nat, n: nat): (j: nat)
    requires i < n
    ensures j < n && After(j, n) == i
  {
    if i > 0 then i - 1 else n - 1
  }

  class SymbolTable {
    const buckets: array<TableNode?>
    var head: TableNode?
    var tail: TableNode?
    var numsTable: int
    ghost var ring: seq<TableNode>
    ghost var table: Table
    ghost var Repr: set<object>

    /** The ring is circular and doubly linked through `ring`, from head to tail. */
    ghost predicate Ringed()
      reads this, ring
    {
      && numsTable == |ring|
      && (forall i, j :: 0 <= i < j < |ring| ==> ring[i] != ring[j])
      && (if ring == [] then head == null && tail == null else head == ring[0] && tail == ring[|ring| - 1])
      && (forall i :: 0 <= i < |ring| ==> ring[i].nextNode == ring[After(i, |ring|)])
      && (forall i :: 0 <= i < |ring| ==> ring[i].preNode == ring[Before(i, |ring|)])
    }

    /** The buckets in use are exactly those in the ring, each with the symbols the table has for its number. */
    ghost predicate Filled()
      reads this, buckets, ring
    {
      && buckets.Length == NUMS_BUCKET && |table| == |ring|
      && (forall h :: h in table ==> 0 <= h < NUMS_BUCKET)
      && (forall h :: 0 <= h < NUMS_BUCKET ==> (buckets[h] == null <==> h !in table))
      && (forall h :: 0 <= h < NUMS_BUCKET && buckets[h] != null ==>
            buckets[h] in ring && buckets[h].hashValue == h && buckets[h].symbols == table[h])
      && (forall b :: b in ring ==> 0 <= b.hashValue < NUMS_BUCKET && buckets[b.hashValue] == b)
    }

    ghost predicate Valid()
      reads this, Repr
    {
      && this in Repr && buckets in Repr
      && (forall b :: b in ring ==> b in Repr)
      && Ringed() && Filled()
    }

    constructor ()
      ensures Valid() && fresh(Repr) && table == map[] && buckets.Length == 100
    {
      buckets := new TableNode?[NUMS_BUCKET](_ => null);
      head, tail, numsTable := null, null, 0;
      ring := [];
      table := map[];
      Repr := {this, buckets};
    }

    /** The bucket of a name; null when nothing has been entered there. */
    method GetSymbolTable(key: string) returns (node: TableNode?)
      requires Valid()
      ensures node == null <==> Hash(key) !in table
      ensures node != null ==> node in ring && node.hashValue == Hash(key) && node.symbols == Bucket(table, Hash(key))
    {
      var h := Hashcode(key);
      return buckets[h];
    }

    method LookUp(key: string, currentLevel: int) returns (s: Option<Symbol>)
      requires Valid()
      ensures s == GetSymbol(table, key, currentLevel)
    {
      var node := GetSymbolTable(key);
      if node == null {
        return None;
      }
      s := node.Best(currentLevel);
    }

    /** A new bucket at the end of the ring. */
    method Link(node: TableNode)
      requires Ringed() && node !in ring && node.preNode == node && node.nextNode == node
      modifies this`head, this`tail, this`numsTable, this`ring
      modifies (set b | b in ring)`preNode, (set b | b in ring)`nextNode, node`preNode, node`nextNode
      ensures Ringed() && ring == old(ring) + [node]
    {
      if numsTable == 0 {
        head := node;
        tail := node;
      } else {
        tail.nextNode := node;
        node.nextNode := head;
        head.preNode := node;
        node.preNode := tail;
        tail := node;
      }
      numsTable := numsTable + 1;
      ring := ring + [node];
    }

    lemma RingSize()
      requires Ringed()
      ensures numsTable == |ring|
    {
    }

    twostate lemma RingKept()
      requires old(Ringed()) && ring == old(ring) && head == old(head) && tail == old(tail)
               && numsTable == old(numsTable)
      requires forall b :: b in ring ==> b.preNode == old(b.preNode) && b.nextNode == old(b.nextNode)
      ensures Ringed()
    {
      forall i | 0 <= i < |ring|
        ensures ring[i].nextNode == ring[After(i, |ring|)] && ring[i].preNode == ring[Before(i, |ring|)]
      {
        assert ring[i] in ring;
      }
    }

    /** A bucket, still empty, for a name none has been entered for yet. */
    method NewBucket(key: string) returns (node: TableNode)
      requires Valid() && Hash(key) !in table
      modifies Repr
      ensures Valid() && fresh(Repr - old(Repr)) && Repr >= old(Repr)
      ensures node in ring && node.hashValue == Hash(key) && table == old(table)[Hash(key) := []]
    {
      hide Ringed, Filled, Hash;
      var h := Hashcode(key);
      node := new TableNode(key, h);
      FilledLength();
      buckets[h] := node;
      RingKept();
      Link(node);
      label Linked:
      Repr := Repr + {node};
      table := table[h := []];
      RingKept@Linked();
      FilledAdded(node, h);
    }

    lemma FilledLength()
      requires Filled()
      ensures buckets.Length == NUMS_BUCKET
    {
    }

    twostate lemma FilledAdded(new node: TableNode, h: int)
      requires old(Filled()) && ring == old(ring) + [node] && 0 <= h < NUMS_BUCKET && h !in old(table)
      requires node.hashValue == h && node.symbols == [] && !old(allocated(node))
      requires buckets[..] == old(buckets[..])[h := node] && table == old(table)[h := []]
      requires forall b :: b in old(ring) ==> b.symbols == old(b.symbols)
      ensures Filled()
    {
      assert table.Keys == old(table).Keys + {h} && |table| == |table.Keys| && |old(table)| == |old(table).Keys|;
      assert forall k :: 0 <= k < NUMS_BUCKET ==> buckets[k] == if k == h then node else old(buckets[k]) by {
        assert forall k :: 0 <= k < NUMS_BUCKET ==>
          buckets[k] == buckets[..][k] && old(buckets[k]) == old(buckets[..])[k];
      }
    }

    /** A symbol at the end of a bucket's list. */
    method AppendTo(node: TableNode, value: Symbol)
      requires Valid() && node in ring
      modifies this`table, node`symbols
      ensures Valid()
      ensures node.hashValue in old(table)
      ensures table == old(table)[node.hashValue := old(table)[node.hashValue] + [value]]
    {
      hide Ringed;
      RingSize();
      table := table[node.hashValue := table[node.hashValue] + [value]];
      node.symbols := node.symbols + [value];
      assert table.Keys == old(table).Keys && |table| == |table.Keys|;
      RingKept();
    }

    /**
      Enters a declaration unless the table is full or has it: afterwards the structures hold
      what PutSymbol makes of the table, and the result says whether anything was entered.
     */
    method Enter(key: string, value: Symbol) returns (done: bool)
      requires Valid() && value.name == key
      modifies Repr
      ensures Valid() && fresh(Repr - old(Repr))
      ensures table == PutSymbol(old(table), value)
      ensures done == (|old(table)| < 100 && !Contains(Bucket(old(table), Hash(key)), value))
    {
      hide Hash;
      if numsTable >= NUMS_BUCKET {
        return false;
      }
      var node := GetSymbolTable(key);
      if node != null {
        var found := node.Has(value);
        if found {
          return false;
        }
      } else {
        node := NewBucket(key);
      }
      AppendTo(node, value);
      return true;
    }
  }
}
