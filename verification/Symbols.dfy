/** Symbols, the bucket table that holds them, and what a name means to the code generator. */
module Symbols {
  import opened Common

  datatype SymbolKind = CONST | VAR | PROC

  datatype Symbol = Symbol(name: string, kind: SymbolKind, val: int, level: int, addr: int)

  const NUMS_BUCKET := 100
  const WORD := 0x1_0000_0000_0000_0000

  /** The buckets by hash value, each in insertion order; a bucket without entry is absent. */
  type Table = map<int, seq<Symbol>>

  function HashFrom(hash: int, key: string): int
    decreases |key|
  {
    if key == [] then hash else HashFrom((hash * 33 + key[0] as int) % WORD, key[1..])
  }

  /** Bucket of a name: the 64-bit multiply-by-33 hash, reduced by the number of buckets. */
  function Hash(key: string): (h: int)
    ensures 0 <= h < NUMS_BUCKET
  {
    HashFrom(5381, key) % NUMS_BUCKET
  }

  function Bucket(t: Table, h: int): seq<Symbol> {
    if h in t then t[h] else []
  }

  /** Two declarations the table takes for the same one; the value is not compared. */
  predicate Same(a: Symbol, b: Symbol) {
    a.name == b.name && a.kind == b.kind && a.level == b.level && a.addr == b.addr
  }

  predicate Contains(bucket: seq<Symbol>, s: Symbol) {
    exists i :: 0 <= i < |bucket| && Same(bucket[i], s)
  }

  /** A full table, or one that already has the declaration, stays as it is. */
  function PutSymbol(t: Table, s: Symbol): Table {
    var h := Hash(s.name);
    if |t| >= NUMS_BUCKET || Contains(Bucket(t, h), s) then t
    else t[h := Bucket(t, h) + [s]]
  }

  /** One step of the search along a bucket: the best symbol so far against the next one. */
  function Prefer(best: Option<Symbol>, s: Symbol, level: int): Option<Symbol> {
    match best
    case None => Some(s)
    case Some(b) => if s.level <= level && s.level - level > b.level - level then Some(s) else best
  }

  function Search(bucket: seq<Symbol>, best: Option<Symbol>, level: int): Option<Symbol>
    decreases |bucket|
  {
    if bucket == [] then best else Search(bucket[1..], Prefer(best, bucket[0], level), level)
  }

  /** What the table answers for a name used at a level; names are never compared. */
  function GetSymbol(t: Table, key: string, level: int): Option<Symbol> {
    Search(Bucket(t, Hash(key)), None, level)
  }

  // ---------- what the search finds ----------

  /** The search again, keeping the position of the best symbol instead of the symbol. */
  function SearchAt(bucket: seq<Symbol>, best: nat, i: nat, level: int): (k: nat)
    requires best < i <= |bucket|
    ensures k < |bucket|
    decreases |bucket| - i
  {
    if i == |bucket| then best
    else if bucket[i].level <= level && bucket[i].level > bucket[best].level then SearchAt(bucket, i, i + 1, level)
    else SearchAt(bucket, best, i + 1, level)
  }

  lemma {:induction false} SearchIsAt(bucket: seq<Symbol>, best: nat, i: nat, level: int)
    requires best < i <= |bucket|
    ensures Search(bucket[i..], Some(bucket[best]), level) == Some(bucket[SearchAt(bucket, best, i, level)])
    decreases |bucket| - i
  {
    if i < |bucket| {
      assert bucket[i..][0] == bucket[i] && bucket[i..][1..] == bucket[i + 1..];
      SearchIsAt(bucket, best, i + 1, level);
      SearchIsAt(bucket, i, i + 1, level);
    }
  }

  /** Position `w` beats position `j` in a search from `level`: deeper, or as deep and declared earlier. */
  predicate Beats(bucket: seq<Symbol>, w: nat, j: nat)
    requires w < |bucket| && j < |bucket|
  {
    bucket[j].level < bucket[w].level || (bucket[j].level == bucket[w].level && w <= j)
  }

  lemma {:induction false} SearchAtBest(bucket: seq<Symbol>, best: nat, i: nat, level: int)
    requires best < i <= |bucket| && bucket[best].level <= level
    requires forall j :: 0 <= j < i && bucket[j].level <= level ==> Beats(bucket, best, j)
    ensures var k := SearchAt(bucket, best, i, level);
            && bucket[k].level <= level
            && forall j :: 0 <= j < |bucket| && bucket[j].level <= level ==> Beats(bucket, k, j)
    decreases |bucket| - i
  {
    if i < |bucket| {
      if bucket[i].level <= level && bucket[i].level > bucket[best].level {
        SearchAtBest(bucket, i, i + 1, level);
      } else {
        SearchAtBest(bucket, best, i + 1, level);
      }
    }
  }

  lemma {:induction false} SearchAtStuck(bucket: seq<Symbol>, i: nat, level: int)
    requires 0 < i <= |bucket| && bucket[0].level > level
    ensures SearchAt(bucket, 0, i, level) == 0
    decreases |bucket| - i
  {
    if i < |bucket| {
      SearchAtStuck(bucket, i + 1, level);
    }
  }

  /** Entry `w` beats every entry no deeper than `level`, and the first one is no deeper either. */
  predicate Wins(bucket: seq<Symbol>, w: nat, level: int)
    requires w < |bucket|
  {
    && bucket[w].level <= level && bucket[0].level <= level
    && forall j :: 0 <= j < |bucket| && bucket[j].level <= level ==> Beats(bucket, w, j)
  }

  /**
    Exactly when a name's lookup comes out at declaration `w` of its bucket, `w` being no deeper
    than the place of use: the bucket's first entry is no deeper either, and `w` beats every
    other entry that is. Entries of other names, and of procedures already finished, count too.
   */
  lemma LookupExact(t: Table, key: string, level: int, w: nat)
    requires w < |Bucket(t, Hash(key))| && Bucket(t, Hash(key))[w].level <= level
    ensures var b := Bucket(t, Hash(key));
            && GetSymbol(t, key, level) == Some(b[SearchAt(b, 0, 1, level)])
            && (SearchAt(b, 0, 1, level) == w <==> Wins(b, w, level))
  {
    var b := Bucket(t, Hash(key));
    assert b == [b[0]] + b[1..];
    SearchIsAt(b, 0, 1, level);
    if b[0].level > level {
      SearchAtStuck(b, 1, level);
    } else {
      SearchAtBest(b, 0, 1, level);
      var k := SearchAt(b, 0, 1, level);
      assert Beats(b, k, w);
    }
  }

  /** A symbol as seen from the place of use: `hops` static links away. */
  datatype Binding = Binding(kind: SymbolKind, hops: int, addr: int, val: int)

  /** What an entry of the table means to a use at `level`. */
  function Meaning(s: Symbol, level: int): Binding {
    Binding(s.kind, level - s.level, s.addr, s.val)
  }

  /** What names mean at one place: by the compiler's table, or by lexical scope. */
  datatype Env = FromTable(table: Table, level: int) | Lexical(scope: map<string, Binding>) {
    function Find(x: string): Option<Binding> {
      match this
      case Lexical(scope) => if x in scope then Some(scope[x]) else None
      case FromTable(table, level) =>
        match GetSymbol(table, x, level)
        case None => None
        case Some(s) => Some(Meaning(s, level))
    }
  }

  /** Some entry of the name's bucket wins and means `binding` to a use at `level`. */
  ghost predicate Resolves(t: Table, key: string, level: int, binding: Binding) {
    var b := Bucket(t, Hash(key));
    exists w: nat :: w < |b| && Wins(b, w, level) && Meaning(b[w], level) == binding
  }

  /** A name means `binding`, declared here or further out, exactly when an entry that means it wins. */
  lemma ResolvesExact(t: Table, key: string, level: int, binding: Binding)
    requires binding.hops >= 0
    ensures FromTable(t, level).Find(key) == Some(binding) <==> Resolves(t, key, level, binding)
  {
    hide Wins, Hash;
    var b := Bucket(t, Hash(key));
    if Resolves(t, key, level, binding) {
      var w: nat :| w < |b| && Wins(b, w, level) && Meaning(b[w], level) == binding;
      LookupExact(t, key, level, w);
    }
    if FromTable(t, level).Find(key) == Some(binding) && b != [] {
      assert b == [b[0]] + b[1..];
      SearchIsAt(b, 0, 1, level);
      var k := SearchAt(b, 0, 1, level);
      LookupExact(t, key, level, k);
    }
  }
}
