/** Listing a session's events: the timestamp order, the "after" filter, and the most-recent
    window, which the store asks for newest first and then turns around (listSessionEvents). */
module EventWindow {
  import opened Wrappers
  import opened Timestamps

  /** What the order looks at: the timestamp column and the event id, unique in a session. */
  datatype RowKey = RowKey(micros: int, id: string)

  // The order of rows

  /** Strings by code point. */
  predicate StringLess(a: string, b: string) {
    b != "" && (a == "" || a[0] < b[0] || (a[0] == b[0] && StringLess(a[1..], b[1..])))
  }

  predicate Less(a: RowKey, b: RowKey) {
    a.micros < b.micros || (a.micros == b.micros && StringLess(a.id, b.id))
  }

  lemma {:induction false} StringLessIsTotal(a: string, b: string)
    ensures StringLess(a, b) || StringLess(b, a) || a == b
    ensures !(StringLess(a, b) && StringLess(b, a)) && !StringLess(a, a)
    decreases a, 1
  {
    if a != "" && b != "" {
      StringLessIsTotal(a[1..], b[1..]);
      if a[0] == b[0] && a[1..] == b[1..] {
        assert a == [a[0]] + a[1..] && b == [b[0]] + b[1..];
      }
    }
    if a != "" {
      Irreflexive(a);
    }
  }

  lemma {:induction false} Irreflexive(a: string)
    ensures !StringLess(a, a)
    decreases a, 0
  {
    if a == "" {
    } else {
      Irreflexive(a[1..]);
    }
  }

  lemma {:induction false} StringLessIsTransitive(a: string, b: string, c: string)
    requires StringLess(a, b) && StringLess(b, c)
    ensures StringLess(a, c)
  {
    if a != "" && a[0] == b[0] && b[0] == c[0] {
      StringLessIsTransitive(a[1..], b[1..], c[1..]);
    }
  }

  lemma {:induction false} LessIsTotal(a: RowKey, b: RowKey)
    ensures Less(a, b) || Less(b, a) || a == b
    ensures !(Less(a, b) && Less(b, a)) && !Less(a, a)
  {
    StringLessIsTotal(a.id, b.id);
    Irreflexive(a.id);
  }

  lemma {:induction false} LessIsTransitive(a: RowKey, b: RowKey, c: RowKey)
    requires Less(a, b) && Less(b, c)
    ensures Less(a, c)
  {
    if a.micros == b.micros == c.micros {
      StringLessIsTransitive(a.id, b.id, c.id);
    }
  }

  // Listings

  /** The rows, each once, in the given direction. */
  ghost predicate IsListing(rows: set<RowKey>, ascending: bool, s: seq<RowKey>) {
    && (forall r :: r in s <==> r in rows)
    && forall i, j | 0 <= i < j < |s| :: if ascending then Less(s[i], s[j]) else Less(s[j], s[i])
  }

  /** The answer of the database to ORDER BY with an optional LIMIT. */
  ghost predicate IsAnswer(rows: set<RowKey>, ascending: bool, limit: Option<nat>, answer: seq<RowKey>) {
    exists full :: IsListing(rows, ascending, full) && answer == Limited(full, limit)
  }

  function Limited<T>(s: seq<T>, limit: Option<nat>): seq<T> {
    if limit.Some? && limit.value < |s| then s[..limit.value] else s
  }

  /** There is only one listing of given rows in a given direction. */
  lemma {:induction false} ListingIsUnique(rows: set<RowKey>, ascending: bool, a: seq<RowKey>, b: seq<RowKey>)
    requires IsListing(rows, ascending, a) && IsListing(rows, ascending, b)
    ensures a == b
    decreases |a|
  {
    hide Less;
    assert b != [] ==> b[0] in b && b[0] in a;
    if a == [] {
    } else {
      assert a[0] in b && b != [] && b[0] in a;
      FirstIsFirst(rows, ascending, a, b);
      var rest := rows - {a[0]};
      DropFirst(rows, ascending, a);
      DropFirst(rows, ascending, b);
      ListingIsUnique(rest, ascending, a[1..], b[1..]);
    }
  }

  lemma {:induction false} FirstIsFirst(rows: set<RowKey>, ascending: bool, a: seq<RowKey>, b: seq<RowKey>)
    requires IsListing(rows, ascending, a) && IsListing(rows, ascending, b) && a != [] && b != []
    ensures a[0] == b[0]
  {
    hide Less;
    assert a[0] in b && b[0] in a;
    var i :| 0 <= i < |b| && b[i] == a[0];
    var j :| 0 <= j < |a| && a[j] == b[0];
    LessIsTotal(a[0], b[0]);
  }

  lemma {:induction false} DropFirst(rows: set<RowKey>, ascending: bool, a: seq<RowKey>)
    requires IsListing(rows, ascending, a) && a != []
    ensures IsListing(rows - {a[0]}, ascending, a[1..])
  {
    hide Less;
    forall r
      ensures r in a[1..] <==> r in rows - {a[0]}
    {
      assert r in rows <==> r in a;
      assert r in a <==> r == a[0] || r in a[1..];
      if r in a[1..] {
        var i :| 1 <= i < |a| && a[i] == r;
        LessIsTotal(a[0], a[i]);
      }
    }
  }

  function Reversed<T>(s: seq<T>): (r: seq<T>)
    ensures |r| == |s| && forall i | 0 <= i < |s| :: r[i] == s[|s| - 1 - i]
  {
    if s == [] then [] else Reversed(s[1..]) + [s[0]]
  }

  /** The rows oldest first; every finite set of rows has such a listing. */
  ghost function Ascending(rows: set<RowKey>): (s: seq<RowKey>)
    ensures IsListing(rows, true, s)
  {
    if rows == {} then []
    else
      HasLeast(rows);
      var least :| least in rows && forall r | r in rows && r != least :: Less(least, r);
      assert IsListing(rows - {least}, true, Ascending(rows - {least}));
      [least] + Ascending(rows - {least})
  }

  lemma {:induction false} HasLeast(rows: set<RowKey>)
    requires rows != {}
    ensures exists least :: least in rows && forall r | r in rows && r != least :: Less(least, r)
  {
    var x :| x in rows;
    var rest := rows - {x};
    assert forall r | r in rows && r != x :: r in rest;
    if rest != {} {
      HasLeast(rest);
      var y :| y in rest && forall r | r in rest && r != y :: Less(y, r);
      LessIsTotal(x, y);
      if Less(x, y) {
        forall r | r in rows && r != x
          ensures Less(x, r)
        {
          if r != y {
            LessIsTransitive(x, y, r);
          }
        }
      } else {
        assert forall r | r in rows && r != y :: Less(y, r);
      }
    }
  }

  lemma {:induction false} ReversedListing(rows: set<RowKey>, ascending: bool, s: seq<RowKey>)
    requires IsListing(rows, ascending, s)
    ensures IsListing(rows, !ascending, Reversed(s))
  {
    hide Less;
    var r := Reversed(s);
    forall x
      ensures x in r <==> x in rows
    {
      assert x in s <==> x in rows;
      if x in s {
        var i :| 0 <= i < |s| && s[i] == x;
        assert r[|s| - 1 - i] == x;
      }
      if x in r {
        var i :| 0 <= i < |r| && r[i] == x;
        assert s[|s| - 1 - i] == x;
      }
    }
  }

  /** The last n elements, or all of them. */
  function LastOf<T>(s: seq<T>, n: nat): seq<T> {
    if n < |s| then s[|s| - n..] else s
  }

  /** One more row goes somewhere into the listing, at the end exactly if it sorts after all. */
  lemma {:induction false} InsertedRow(rows: set<RowKey>, r: RowKey) returns (i: nat)
    requires r !in rows
    ensures i <= |Ascending(rows)|
    ensures Ascending(rows + {r}) == Ascending(rows)[..i] + [r] + Ascending(rows)[i..]
    ensures i == |Ascending(rows)| <==> forall x | x in rows :: Less(x, r)
  {
    hide Less, Ascending;
    var s, longer := Ascending(rows), Ascending(rows + {r});
    assert r in longer;
    i :| 0 <= i < |longer| && longer[i] == r;
    DropAt(rows + {r}, longer, i);
    assert rows + {r} - {r} == rows;
    ListingIsUnique(rows, true, longer[..i] + longer[i + 1..], s);
    assert s[..i] == longer[..i] && s[i..] == longer[i + 1..];
    if i == |s| {
      forall x | x in rows
        ensures Less(x, r)
      {
        assert x in s;
        var j :| 0 <= j < |s| && s[j] == x;
        assert longer[j] == x;
      }
    } else {
      assert longer[i + 1] in rows by { assert s[i] in s; }
      LessIsTotal(r, longer[i + 1]);
    }
  }

  lemma {:induction false} DropAt(rows: set<RowKey>, s: seq<RowKey>, i: nat)
    requires IsListing(rows, true, s) && i < |s|
    ensures IsListing(rows - {s[i]}, true, s[..i] + s[i + 1..])
  {
    hide Less;
    var rest := s[..i] + s[i + 1..];
    forall r
      ensures r in rest <==> r in rows - {s[i]}
    {
      assert r in rows <==> r in s;
      if r in rest {
        var j :| 0 <= j < |rest| && rest[j] == r;
        var at := if j < i then j else j + 1;
        assert s[at] == r;
        LessIsTotal(s[at], s[i]);
      }
      if r in s && r != s[i] {
        var j :| 0 <= j < |s| && s[j] == r;
        assert rest[if j < i then j else j - 1] == r;
      }
    }
  }

  // The "after" filter

  /** timestamp >= @after, or no condition for the zero time. */
  predicate NotBefore(micros: int, after: Instant) {
    after != ZERO_INSTANT ==> micros >= TruncateMicros(after)
  }

  ghost function Filtered(rows: set<RowKey>, after: Instant): set<RowKey> {
    set r | r in rows && NotBefore(r.micros, after)
  }

  /** The filter keeps exactly the events from the start of the microsecond that after lies in:
      none at or after the instant is dropped, and none more than 999 nanoseconds earlier is
      returned. */
  lemma {:induction false} FilterIsTight(ts: Timestamp, after: Instant)
    requires after != ZERO_INSTANT
    ensures NotBefore(Column(ts), after) <==> AsTime(ts) >= after - after % 1_000
    ensures AsTime(ts) >= after ==> NotBefore(Column(ts), after)
    ensures NotBefore(Column(ts), after) ==> AsTime(ts) >= after - 999
  {
    ColumnFloors(ts);
  }

  /** The filter keeps the end of the ascending listing. */
  lemma {:induction false} FilterIsSuffix(rows: set<RowKey>, after: Instant, s: seq<RowKey>)
    requires IsListing(rows, true, s)
    ensures exists i :: 0 <= i <= |s| && s[i..] == Ascending(Filtered(rows, after))
    decreases |s|
  {
    hide Less, NotBefore, StringLess;
    if s == [] {
      assert Filtered(rows, after) == {};
      ListingIsUnique({}, true, s, Ascending({}));
      assert s[0..] == s;
    } else if NotBefore(s[0].micros, after) {
      forall r | r in rows
        ensures NotBefore(r.micros, after)
      {
        var i :| 0 <= i < |s| && s[i] == r;
        LaterStays(s[0], r, after);
      }
      assert Filtered(rows, after) == rows;
      ListingIsUnique(rows, true, s, Ascending(rows));
      assert s[0..] == s;
    } else {
      var rest := rows - {s[0]};
      DropFirst(rows, true, s);
      assert Filtered(rest, after) == Filtered(rows, after);
      FilterIsSuffix(rest, after, s[1..]);
      var i :| 0 <= i <= |s[1..]| && s[1..][i..] == Ascending(Filtered(rest, after));
      assert s[i + 1..] == s[1..][i..];
    }
  }

  lemma {:induction false} LaterStays(a: RowKey, b: RowKey, after: Instant)
    requires NotBefore(a.micros, after) && (a == b || Less(a, b))
    ensures NotBefore(b.micros, after)
  {
  }

  // The query

  /** The rows listSessionEvents returns: with a positive count the most recent ones, otherwise
      all, oldest first either way. */
  ghost function Window(rows: set<RowKey>, after: Instant, numRecent: int): seq<RowKey> {
    var all := Ascending(Filtered(rows, after));
    if numRecent > 0 then LastOf(all, numRecent) else all
  }

  function LimitOf(numRecent: int): Option<nat> {
    if numRecent > 0 then Some(numRecent) else None
  }

  /** Whatever the filter and the count, a window is the end of the whole ascending listing. */
  lemma {:induction false} WindowIsSuffix(rows: set<RowKey>, after: Instant, numRecent: int)
    ensures exists i :: 0 <= i <= |Ascending(rows)| && Ascending(rows)[i..] == Window(rows, after, numRecent)
  {
    hide Filtered, Ascending, IsListing, NotBefore;
    var s := Ascending(rows);
    FilterIsSuffix(rows, after, s);
    var i :| 0 <= i <= |s| && s[i..] == Ascending(Filtered(rows, after));
    if 0 < numRecent < |s[i..]| {
      var j := |s| - numRecent;
      assert s[j..] == s[i..][|s[i..]| - numRecent..];
    }
  }

  /** slices.Reverse. */
  method Reverse<T>(a: array<T>)
    modifies a
    ensures a[..] == Reversed(old(a[..]))
  {
    var i, j := 0, a.Length - 1;
    while i < j
      invariant 0 <= i <= a.Length && i + j == a.Length - 1 && i <= j + 1
      invariant forall k | 0 <= k < a.Length ::
          a[k] == if i <= k <= j then old(a[k]) else old(a[a.Length - 1 - k])
    {
      a[i], a[j] := a[j], a[i];
      i, j := i + 1, j - 1;
    }
  }

  /** listSessionEvents, given what the database answers to the query it builds. */
  method ListSessionEvents(ghost rows: set<RowKey>, after: Instant, numRecent: int, answer: seq<RowKey>)
    returns (events: seq<RowKey>)
    requires IsAnswer(Filtered(rows, after), numRecent <= 0, LimitOf(numRecent), answer)
    ensures events == Window(rows, after, numRecent)
  {
    hide IsListing, IsAnswer, Window, Filtered;
    var out := new RowKey[|answer|](i requires 0 <= i < |answer| => answer[i]);
    assert out[..] == answer;
    if numRecent > 0 {
      Reverse(out);
      WindowIsLast(rows, after, numRecent, answer);
    } else {
      AllIsAscending(rows, after, numRecent, answer);
    }
    return out[..];
  }

  /** Newest first, limited, and turned around: exactly the last elements of the ascending
      list. */
  lemma {:induction false} WindowIsLast(rows: set<RowKey>, after: Instant, numRecent: int, answer: seq<RowKey>)
    requires numRecent > 0 && IsAnswer(Filtered(rows, after), false, Some(numRecent), answer)
    ensures Reversed(answer) == Window(rows, after, numRecent)
  {
    hide IsListing, Filtered;
    var f := Filtered(rows, after);
    var full :| IsListing(f, false, full) && answer == Limited(full, Some(numRecent));
    ReversedListing(f, false, full);
    ListingIsUnique(f, true, Reversed(full), Ascending(f));
    assert Reversed(answer) == LastOf(Reversed(full), numRecent);
  }

  lemma {:induction false} AllIsAscending(rows: set<RowKey>, after: Instant, numRecent: int, answer: seq<RowKey>)
    requires numRecent <= 0 && IsAnswer(Filtered(rows, after), true, None, answer)
    ensures answer == Window(rows, after, numRecent)
  {
    hide IsListing, Filtered;
    var f := Filtered(rows, after);
    var full :| IsListing(f, true, full) && answer == Limited(full, None);
    ListingIsUnique(f, true, full, Ascending(f));
  }
}
