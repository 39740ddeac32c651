/** Tables with a few symbols in them, and what they answer. */
module SmallTables {
  import opened Common
  import opened Machine
  import opened Syntax
  import opened Symbols

  const FRESH_OFFSETS: seq<int> := [4, 4, 4, 4, 4]

  lemma HashOf(x: string, code: int)
    requires |x| == 1 && x[0] as int == code && 97 <= code < 127
    ensures Hash(x) == code - 27
  {
    assert HashFrom(5381, x) == HashFrom(177573 + code, x[1..]) == 177573 + code;
  }

  /** The first symbol of its bucket. */
  lemma FreePut(t: Table, s: Symbol)
    requires |t| < NUMS_BUCKET && Hash(s.name) !in t
    ensures PutSymbol(t, s) == t[Hash(s.name) := [s]]
  {
    assert [] + [s] == [s];
  }

  /** The second symbol of its bucket. */
  lemma SecondPut(t: Table, s: Symbol, r: Symbol)
    requires |t| < NUMS_BUCKET && Hash(s.name) in t && t[Hash(s.name)] == [r] && !Same(r, s)
    ensures PutSymbol(t, s) == t[Hash(s.name) := [r, s]]
  {
    assert [r] + [s] == [r, s];
  }

  lemma LoneFound(t: Table, x: string, h: int, level: int, s: Symbol)
    requires h == Hash(x) && h in t && t[h] == [s]
    ensures FromTable(t, level).Find(x) == Some(Meaning(s, level))
  {
    hide Hash;
    assert Search([s], None, level) == Search([s][1..], Some(s), level) == Some(s);
  }

  /** Of two symbols in a bucket the second is found if it is deeper than the first, and no deeper than the use. */
  lemma PairFound(t: Table, x: string, h: int, level: int, r: Symbol, s: Symbol)
    requires h == Hash(x) && h in t && t[h] == [r, s]
    ensures FromTable(t, level).Find(x) == Some(Meaning(if r.level < s.level <= level then s else r, level))
  {
    hide Hash;
    var best := if r.level < s.level <= level then s else r;
    assert [r, s][1..] == [s] && [s][1..] == [];
    assert Search([r, s], None, level) == Search([s], Some(r), level) == Search([], Some(best), level) == Some(best);
  }
}
