/** The Redis list commands the chat memory uses (RPUSH, LTRIM, LRANGE, DEL) over a key space
    holding lists. Indices follow Redis: a negative index counts from the tail (-1 is the last
    element), a start before the head is clamped to 0, a stop past the tail is clamped to the
    last element, and an empty range is the empty list. Redis never keeps an empty list under
    a key: a trim that empties a list deletes the key. */
module RedisList {

  type Db<V> = map<string, seq<V>>

  /** The list under `key`; a missing key reads as the empty list. */
  function Get<V>(db: Db<V>, key: string): seq<V> {
    if key in db then db[key] else []
  }

  /** Redis stores no empty list. */
  ghost predicate NoEmptyLists<V>(db: Db<V>) {
    forall k :: k in db ==> |db[k]| > 0
  }

  function Min(a: int, b: int): int {
    if a <= b then a else b
  }

  /** Whether the element at position `i` of a list of length `n` lies between `start` and
      `stop`, both inclusive, a negative bound counting from the tail. */
  predicate Selected(n: int, i: int, start: int, stop: int) {
    && (if start < 0 then i >= n + start else i >= start)
    && (if stop < 0 then i <= n + stop else i <= stop)
  }

  /** The first position a range can select: `start` read from the tail when negative, and
      clamped to the head. */
  function FirstSelectable(n: int, start: int): int {
    var first := if start < 0 then n + start else start;
    if first < 0 then 0 else first
  }

  /** The elements an LRANGE/LTRIM with `start` and `stop` (both inclusive) selects: one
      contiguous run in list order, starting at the first selectable position
      (`RangeSelects` says which positions it covers). */
  function Range<V>(s: seq<V>, start: int, stop: int): (r: seq<V>)
    ensures |r| <= |s|
    ensures |r| > 0 ==>
      var lo := FirstSelectable(|s|, start);
      lo + |r| <= |s| && r == s[lo..lo + |r|]
  {
    var n := |s|;
    var first := if start < 0 then n + start else start;
    var last := if stop < 0 then n + stop else stop;
    var first' := if first < 0 then 0 else first;
    if first' > last || first' >= n then []
    else
      var last' := if last >= n then n - 1 else last;
      s[first'..last' + 1]
  }

  /** A range covers exactly the positions `Selected` admits. */
  lemma RangeSelects<V>(s: seq<V>, start: int, stop: int, i: int)
    requires 0 <= i < |s|
    ensures Selected(|s|, i, start, stop) <==>
      FirstSelectable(|s|, start) <= i < FirstSelectable(|s|, start) + |Range(s, start, stop)|
  {
  }

  /** A negative `start` with `stop = -1` selects the last min(-start, |s|) elements, oldest
      first. */
  lemma RangeTail<V>(s: seq<V>, start: int)
    ensures start <= -1 ==> |Range(s, start, -1)| == Min(-start, |s|)
    ensures start <= -1 ==> forall i :: 0 <= i < |Range(s, start, -1)| ==> Range(s, start, -1)[i] == s[|s| - Min(-start, |s|) + i]
  {
  }

  /** `start = 0, stop = -1` selects the whole list. */
  lemma RangeWhole<V>(s: seq<V>)
    ensures Range(s, 0, -1) == s
  {
  }

  /** A non-negative `start` with `stop = -1` drops the first `start` elements. */
  lemma RangeDrop<V>(s: seq<V>, start: int)
    ensures start >= 0 ==> Range(s, start, -1) == if start < |s| then s[start..] else []
  {
  }

  /** RPUSH: append one element at the tail, creating the list when the key is missing. */
  function RPush<V>(db: Db<V>, key: string, v: V): (r: Db<V>)
    ensures Get(r, key) == Get(db, key) + [v]
    ensures forall k :: k != key ==> Get(r, k) == Get(db, k)
    ensures NoEmptyLists(db) ==> NoEmptyLists(r)
  {
    db[key := Get(db, key) + [v]]
  }

  /** LTRIM: keep only the selected range; an empty range deletes the key. */
  function LTrim<V>(db: Db<V>, key: string, start: int, stop: int): (r: Db<V>)
    ensures Get(r, key) == Range(Get(db, key), start, stop)
    ensures forall k :: k != key ==> Get(r, k) == Get(db, k)
    ensures NoEmptyLists(db) ==> NoEmptyLists(r)
  {
    var kept := Range(Get(db, key), start, stop);
    if kept == [] then db - {key} else db[key := kept]
  }

  /** LRANGE: read the selected range; nothing changes. */
  function LRange<V>(db: Db<V>, key: string, start: int, stop: int): (r: seq<V>)
    ensures |r| <= |Get(db, key)|
    ensures key !in db ==> r == []
    ensures key in db && |r| > 0 ==>
      var lo := FirstSelectable(|db[key]|, start);
      lo + |r| <= |db[key]| && r == db[key][lo..lo + |r|]
  {
    Range(Get(db, key), start, stop)
  }

  /** DEL: remove the key; deleting a missing key is not an error. */
  function Del<V>(db: Db<V>, key: string): (r: Db<V>)
    ensures key !in r && Get(r, key) == []
    ensures forall k :: k != key ==> Get(r, k) == Get(db, k)
    ensures NoEmptyLists(db) ==> NoEmptyLists(r)
  {
    db - {key}
  }
}
