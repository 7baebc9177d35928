/** Inserting one element with `Array.prototype.splice` (no deletion) on a copy of an array, as a value. */
module JsArray {

  /**
   * Where `splice` actually inserts: a negative `start` counts back from the end and
   * stops at 0, a `start` past the end stops at the end. It never fails.
   */
  function SpliceStart(start: int, len: nat): (k: nat)
    ensures k <= len
    ensures 0 <= start <= len ==> k == start
    ensures start > len ==> k == len
    ensures start < 0 ==> k == if len + start < 0 then 0 else len + start
  {
    if start < 0 then (if len + start < 0 then 0 else len + start)
    else if start > len then len
    else start
  }

  /** A copy of `s` with `x` inserted at the clamped start position. */
  function Insert<T>(s: seq<T>, start: int, x: T): (r: seq<T>)
    ensures |r| == |s| + 1
    ensures var k := SpliceStart(start, |s|);
      r[..k] == s[..k] && r[k] == x && r[k + 1..] == s[k..]
  {
    var k := SpliceStart(start, |s|);
    s[..k] + [x] + s[k..]
  }

  /** Inserting adds exactly one copy of `x` and keeps every other element. */
  lemma InsertMultiset<T>(s: seq<T>, start: int, x: T)
    ensures multiset(Insert(s, start, x)) == multiset(s) + multiset{x}
  {
    var k := SpliceStart(start, |s|);
    assert s == s[..k] + s[k..];
    assert Insert(s, start, x) == s[..k] + [x] + s[k..];
  }

  /** An index at or past the end appends. */
  lemma InsertPastEnd<T>(s: seq<T>, start: int, x: T)
    requires start >= |s|
    ensures Insert(s, start, x) == s + [x]
  {
  }

  /** The inserted element splits the copy into the part before `k` and the rest. */
  lemma InsertSplit<T>(s: seq<T>, start: int, x: T)
    ensures var k := SpliceStart(start, |s|);
      Insert(s, start, x) == s[..k] + ([x] + s[k..]) && s == s[..k] + s[k..]
  {
    var k := SpliceStart(start, |s|);
    assert s[..k] + [x] + s[k..] == s[..k] + ([x] + s[k..]);
  }
}
