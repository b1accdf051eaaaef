/**
 * Newest-first ordering by creation time, the order every todo listing
 * uses (`orderBy: { createdAt: 'desc' }`).
 */
module Ordering {

  /** Every item is at least as new as every item after it. */
  predicate NewestFirst<T>(s: seq<T>, at: T -> nat) {
    forall i, j :: 0 <= i < j < |s| ==> at(s[i]) >= at(s[j])
  }

  /** Places `x` in a newest-first sequence, before every item that is not newer. */
  function Insert<T>(x: T, s: seq<T>, at: T -> nat): (r: seq<T>)
    requires NewestFirst(s, at)
    ensures NewestFirst(r, at)
    ensures multiset(r) == multiset(s) + multiset{x}
  {
    if s == [] || at(x) >= at(s[0]) then
      [x] + s
    else
      var rest := Insert(x, s[1..], at);
      InsertedBelowHead(x, s, rest, at);
      ConsNewestFirst(s[0], rest, at);
      assert s == [s[0]] + s[1..];
      [s[0]] + rest
  }

  /** The head of a newest-first sequence is at least as new as anything the rest becomes once an older `x` joins it. */
  lemma InsertedBelowHead<T>(x: T, s: seq<T>, rest: seq<T>, at: T -> nat)
    requires NewestFirst(s, at) && |s| > 0 && at(x) < at(s[0])
    requires multiset(rest) == multiset(s[1..]) + multiset{x}
    ensures forall k :: 0 <= k < |rest| ==> at(s[0]) >= at(rest[k])
  {
    forall k | 0 <= k < |rest| ensures at(s[0]) >= at(rest[k]) {
      assert rest[k] in multiset(rest);
      if rest[k] != x {
        assert rest[k] in multiset(s[1..]);
        var i :| 0 <= i < |s[1..]| && s[1..][i] == rest[k];
        assert s[i + 1] == rest[k];
      }
    }
  }

  /** An item at least as new as every item of a newest-first sequence can go in front of it. */
  lemma ConsNewestFirst<T>(h: T, t: seq<T>, at: T -> nat)
    requires NewestFirst(t, at)
    requires forall k :: 0 <= k < |t| ==> at(h) >= at(t[k])
    ensures NewestFirst([h] + t, at)
  {
    var r := [h] + t;
    forall i, j | 0 <= i < j < |r| ensures at(r[i]) >= at(r[j]) {
      assert r[j] == t[j - 1];
      if i > 0 {
        assert r[i] == t[i - 1];
      }
    }
  }

  /** The items of `s`, newest first: same items, same multiplicities. */
  function SortNewestFirst<T>(s: seq<T>, at: T -> nat): (r: seq<T>)
    ensures NewestFirst(r, at)
    ensures multiset(r) == multiset(s)
  {
    if s == [] then []
    else
      assert s == [s[0]] + s[1..];
      Insert(s[0], SortNewestFirst(s[1..], at), at)
  }

  /** In a newest-first sequence, an item strictly newer than all others comes first. */
  lemma StrictlyNewestIsFirst<T>(s: seq<T>, x: T, at: T -> nat)
    requires NewestFirst(s, at) && x in s
    requires forall y :: y in s && y != x ==> at(y) < at(x)
    ensures s[0] == x
  {
    var j :| 0 <= j < |s| && s[j] == x;
    assert at(s[0]) >= at(s[j]);
  }
}
