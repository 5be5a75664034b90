/** The text blocks a stream converter keeps by index, and their indexes in ascending order. */
module Blocks {

  datatype Block = Block(text: string, started: bool, open: bool)

  type BlockMap = map<int, Block>

  /** `ensureBlock`: the block under an index, created empty when it is missing. */
  function BlockAt(blocks: BlockMap, index: int): Block {
    if index in blocks then blocks[index] else Block("", false, false)
  }

  predicate Ascending(s: seq<int>) {
    forall i, j | 0 <= i < j < |s| :: s[i] < s[j]
  }

  lemma Pick<T>(s: set<T>) returns (x: T)
    requires s != {}
    ensures x in s
  {
    x :| x in s;
  }

  lemma {:induction false} Least(keys: set<int>) returns (m: int)
    requires keys != {}
    ensures m in keys && forall k | k in keys :: m <= k
  {
    var some := Pick(keys);
    var rest := keys - {some};
    assert forall k | k in keys :: k == some || k in rest;
    m := some;
    if rest != {} {
      var l := Least(rest);
      m := if l < some then l else some;
    }
  }

  lemma LeastExists(keys: set<int>)
    requires keys != {}
    ensures exists m :: m in keys && forall k | k in keys :: m <= k
  {
    var m := Least(keys);
  }

  /** A finite set of integers as an ascending list. */
  ghost function Sorted(keys: set<int>): (r: seq<int>)
    ensures Ascending(r)
    ensures forall k :: k in r <==> k in keys
  {
    if keys == {} then [] else
      LeastExists(keys);
      var m :| m in keys && forall k | k in keys :: m <= k;
      [m] + Sorted(keys - {m})
  }

  /** An ascending list is determined by its elements. */
  lemma {:induction false} AscendingUnique(a: seq<int>, b: seq<int>)
    requires Ascending(a) && Ascending(b) && forall k :: k in a <==> k in b
    ensures a == b
  {
    if a == [] {
      assert forall k | 0 <= k < |b| :: b[k] in b;
    } else {
      assert a[0] in a && b != [] && b[0] in b;
      assert a[0] == b[0];
      forall k ensures k in a[1..] <==> k in b[1..] {
        assert k in a[1..] <==> k in a && k != a[0];
        assert k in b[1..] <==> k in b && k != b[0];
      }
      AscendingUnique(a[1..], b[1..]);
    }
  }

  /** Puts a new index in its place, as sorting the list would. */
  method Insert(indexes: seq<int>, index: int) returns (r: seq<int>)
    requires Ascending(indexes) && index !in indexes
    ensures Ascending(r) && forall k :: k in r <==> k == index || k in indexes
  {
    var n := 0;
    while n < |indexes| && indexes[n] < index
      invariant n <= |indexes| && forall k | 0 <= k < n :: indexes[k] < index
    {
      n := n + 1;
    }
    r := indexes[..n] + [index] + indexes[n..];
    assert indexes == indexes[..n] + indexes[n..];
  }

  method OrderedIndexes(blocks: BlockMap) returns (indexes: seq<int>)
    ensures indexes == Sorted(blocks.Keys)
  {
    indexes := [];
    var left := blocks.Keys;
    while left != {}
      invariant left <= blocks.Keys && Ascending(indexes)
      invariant forall k :: k in indexes <==> k in blocks.Keys - left
      decreases left
    {
      ghost var some := Pick(left);
      assert some in left;
      var index :| index in left;
      indexes := Insert(indexes, index);
      left := left - {index};
    }
    AscendingUnique(indexes, Sorted(blocks.Keys));
  }
}
