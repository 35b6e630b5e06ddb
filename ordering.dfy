/** The store's `.sort({ createdAt: -1 })`: documents ordered by creation
    time, most recent first. The sort is stated over any record type with a
    timestamp, since both posts and comments are listed this way. */
module Ordering {

  /** Timestamps never increase along `s`. */
  predicate NewestFirst<T>(s: seq<T>, time: T -> nat)
  {
    forall i, j :: 0 <= i < j < |s| ==> time(s[i]) >= time(s[j])
  }

  /** Places `x` in the newest-first sequence `s` before the first element
      that is not newer than it. */
  function InsertNewest<T(!new)>(x: T, s: seq<T>, time: T -> nat): (r: seq<T>)
    requires NewestFirst(s, time)
    ensures |r| == |s| + 1
    ensures NewestFirst(r, time)
    ensures multiset(r) == multiset(s) + multiset{x}
  {
    if s == [] || time(x) >= time(s[0]) then
      [x] + s
    else
      var rest := InsertNewest(x, s[1..], time);
      assert s == [s[0]] + s[1..];
      HeadIsNewest(s, x, rest, time);
      [s[0]] + rest
  }

  /** Inserting an older `x` into the tail of `s` leaves `s[0]` newest. */
  lemma HeadIsNewest<T>(s: seq<T>, x: T, rest: seq<T>, time: T -> nat)
    requires s != [] && NewestFirst(s, time) && time(x) < time(s[0])
    requires multiset(rest) == multiset(s[1..]) + multiset{x}
    ensures forall j :: 0 <= j < |rest| ==> time(s[0]) >= time(rest[j])
  {
    forall j | 0 <= j < |rest| ensures time(s[0]) >= time(rest[j]) {
      assert rest[j] in multiset(rest);
      if rest[j] != x {
        assert rest[j] in s[1..];
      }
    }
  }

  /** `s` ordered newest first: the same documents, with timestamps that
      never increase. */
  function SortNewest<T(!new)>(s: seq<T>, time: T -> nat): (r: seq<T>)
    ensures |r| == |s|
    ensures NewestFirst(r, time)
    ensures multiset(r) == multiset(s)
  {
    if s == [] then []
    else
      assert s == [s[0]] + s[1..];
      InsertNewest(s[0], SortNewest(s[1..], time), time)
  }
}
