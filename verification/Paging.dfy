/** Offset pagination of ListSessions and ListEvents: page sizes, page tokens, and the walk a
    client makes by following tokens. */
module Paging {
  import opened Wrappers
  import opened Encoding

  const DEFAULT_PAGE_SIZE := 100
  const MAX_PAGE_SIZE := 1000

  function NormalizePageSize(size: int): (n: nat)
    ensures 1 <= n <= MAX_PAGE_SIZE
    ensures 1 <= size <= 1000 ==> n == size
    ensures size <= 0 ==> n == 100
    ensures size > 1000 ==> n == 1000
  {
    if size <= 0 then DEFAULT_PAGE_SIZE
    else if size > MAX_PAGE_SIZE then MAX_PAGE_SIZE
    else size
  }

  function NewPageToken(offset: int): string {
    if offset <= 0 then "" else EncodeBase64(Itoa(offset))
  }

  function ParsePageToken(token: string): (r: Result<nat>)
    ensures r.Err? ==> r == Err(InvalidArgument)
  {
    if token == "" then
      Ok(0)
    else
      match DecodeBase64(token)
      case None => Err(InvalidArgument)
      case Some(raw) =>
        match Atoi(raw)
        case None => Err(InvalidArgument)
        case Some(offset) => if offset < 0 then Err(InvalidArgument) else Ok(offset)
  }

  /** Printing and parsing a token are inverse on every offset a 64-bit int can hold, and only
      the start of the listing prints as the empty token. */
  lemma {:induction false} TokenRoundTrip(offset: nat)
    requires offset <= MAX_INT64
    ensures ParsePageToken(NewPageToken(offset)) == Ok(offset)
    ensures NewPageToken(offset) == "" <==> offset == 0
  {
    if offset > 0 {
      Base64RoundTrip(Itoa(offset));
      DecimalRoundTrip(offset);
    }
  }

  /** A token that carries a negative offset is refused. */
  lemma {:induction false} NegativeTokenFails(offset: int)
    requires MIN_INT64 <= offset < 0
    ensures ParsePageToken(EncodeBase64(Itoa(offset))) == Err(InvalidArgument)
  {
    Base64RoundTrip(Itoa(offset));
    DecimalRoundTrip(offset);
  }

  /** The token of the second default page, as any base64 encoder writes it. */
  lemma {:induction false} SecondPageToken()
    ensures NewPageToken(100) == "MTAw"
  {
    assert DigitsOf(1) == [49] && DigitsOf(10) == [49, 48] && DigitsOf(100) == [49, 48, 48];
    assert Itoa(100) == [49, 48, 48];
  }

  datatype Page<T> = Page(items: seq<T>, nextToken: string)

  /** Go's int addition on a 64-bit platform. */
  function Add64(a: int, b: int): int {
    if a + b > MAX_INT64 then a + b - 0x1_0000_0000_0000_0000
    else if a + b < MIN_INT64 then a + b + 0x1_0000_0000_0000_0000
    else a + b
  }

  /** What the database answers to LIMIT limit OFFSET offset over the ordered result. */
  function Rows<T>(all: seq<T>, limit: nat, offset: nat): (rows: seq<T>)
    ensures |rows| <= limit
  {
    if offset >= |all| then []
    else if |all| - offset <= limit then all[offset..]
    else all[offset..offset + limit]
  }

  datatype Cut<T> = Cut(items: seq<T>, next: int)

  /** The rows of one page from an offset, and the offset of the next page (0 for none). */
  function CutAt<T>(all: seq<T>, pageSize: nat, offset: nat): Cut<T> {
    var rows := Rows(all, pageSize + 1, offset);
    if |rows| > pageSize then Cut(rows[..pageSize], Add64(offset, pageSize)) else Cut(rows, 0)
  }

  /** One list call, over a result whose order does not change between calls. */
  function PageOf<T>(all: seq<T>, size: int, token: string): Result<Page<T>> {
    match ParsePageToken(token)
    case Err(e) => Err(e)
    case Ok(offset) =>
      var cut := CutAt(all, NormalizePageSize(size), offset);
      Ok(Page(cut.items, NewPageToken(cut.next)))
  }

  /** The list handlers: read the rows one by one, then cut the probe row off the end. */
  method ListPage<T>(all: seq<T>, size: int, token: string) returns (r: Result<Page<T>>)
    ensures r == PageOf(all, size, token)
    ensures r.Err? ==> r == Err(InvalidArgument)
    ensures r.Ok? ==> |r.value.items| <= (if size <= 0 then 100 else if size > 1000 then 1000 else size)
  {
    hide ParsePageToken;
    var pageSize := NormalizePageSize(size);
    var parsed := ParsePageToken(token);
    if parsed.Err? {
      return Err(parsed.status);
    }
    var offset := parsed.value;
    var answer := Rows(all, pageSize + 1, offset);
    var items: seq<T> := [];
    for i := 0 to |answer|
      invariant items == answer[..i]
    {
      items := items + [answer[i]];
    }
    assert items == answer;
    var nextToken := "";
    if |items| > pageSize {
      items := items[..pageSize];
      nextToken := NewPageToken(Add64(offset, pageSize));
    }
    return Ok(Page(items, nextToken));
  }

  /** A page is the next stretch of the listing, non-empty unless the listing is exhausted, and
      it names a next offset exactly when rows remain: the first row not yet returned. */
  lemma {:induction false} CutStep<T>(all: seq<T>, pageSize: nat, offset: nat)
    requires |all| <= MAX_INT64 && 1 <= pageSize
    ensures var cut := CutAt(all, pageSize, offset);
            if offset >= |all| then cut == Cut([], 0)
            else
              && 1 <= |cut.items| <= pageSize && offset + |cut.items| <= |all|
              && cut.items == all[offset..offset + |cut.items|]
              && cut.next == (if offset + |cut.items| < |all| then offset + |cut.items| else 0)
  {
  }

  /** The same of a whole call, tokens included. */
  lemma {:induction false} PageStep<T>(all: seq<T>, size: int, token: string)
    requires |all| <= MAX_INT64
    requires ParsePageToken(token).Ok?
    ensures PageOf(all, size, token).Ok?
    ensures var offset := ParsePageToken(token).value;
            var page := PageOf(all, size, token).value;
            if offset >= |all| then page == Page([], "")
            else
              && page.items != [] && offset + |page.items| <= |all|
              && page.items == all[offset..offset + |page.items|]
              && (page.nextToken == "" <==> offset + |page.items| == |all|)
              && (page.nextToken != "" ==>
                    ParsePageToken(page.nextToken) == Ok(offset + |page.items|))
  {
    hide ParsePageToken;
    var offset := ParsePageToken(token).value;
    CutStep(all, NormalizePageSize(size), offset);
    TokenRoundTrip(CutAt(all, NormalizePageSize(size), offset).next);
  }

  /** Every item a client sees that starts from token and follows each next token until there
      is none, asking for sizes(i) items on call i. */
  ghost function Walk<T>(all: seq<T>, token: string, sizes: nat -> int, call: nat): seq<T>
    requires |all| <= MAX_INT64
    requires ParsePageToken(token).Ok?
    decreases |all| - ParsePageToken(token).value
  {
    hide ParsePageToken;
    PageStep(all, sizes(call), token);
    var page := PageOf(all, sizes(call), token).value;
    if page.nextToken == "" then page.items
    else page.items + Walk(all, page.nextToken, sizes, call + 1)
  }

  /** Following tokens terminates and loses and repeats nothing, whatever sizes are asked for. */
  lemma {:induction false} WalkIsComplete<T>(all: seq<T>, token: string, sizes: nat -> int, call: nat)
    requires |all| <= MAX_INT64
    requires ParsePageToken(token).Ok?
    ensures var offset := ParsePageToken(token).value;
            Walk(all, token, sizes, call) == if offset <= |all| then all[offset..] else []
    decreases |all| - ParsePageToken(token).value
  {
    hide ParsePageToken, NewPageToken, PageOf;
    PageStep(all, sizes(call), token);
    var offset := ParsePageToken(token).value;
    var page := PageOf(all, sizes(call), token).value;
    if page.nextToken == "" {
    } else {
      WalkIsComplete(all, page.nextToken, sizes, call + 1);
      assert all[offset..] == page.items + all[offset + |page.items|..];
    }
  }

  /** From the empty token, the pages concatenate to the whole listing. */
  lemma {:induction false} PaginationIsComplete<T>(all: seq<T>, sizes: nat -> int)
    requires |all| <= MAX_INT64
    ensures Walk(all, "", sizes, 0) == all
  {
    WalkIsComplete(all, "", sizes, 0);
  }

  // Ties. Listings are ordered by a time alone, so rows with equal times can come in another
  // order on the next call.

  /** An answer to the query: the rows, each once, sorted by their key and otherwise in any order. */
  ghost predicate IsAnswer<T>(rows: seq<T>, key: T -> int, answer: seq<T>) {
    && |answer| == |rows| && Distinct(answer)
    && (forall x | x in answer :: x in rows) && (forall x | x in rows :: x in answer)
    && forall i, j | 0 <= i < j < |answer| :: key(answer[i]) <= key(answer[j])
  }

  /** The answers a client's calls get, each its own. */
  ghost predicate AreAnswers<T>(rows: seq<T>, key: T -> int, answers: nat -> seq<T>) {
    forall call :: IsAnswer(rows, key, answers(call))
  }

  /** What a client sees that follows the tokens, when each call has its own answer. */
  ghost function WalkOver<T>(
      rows: seq<T>, key: T -> int, answers: nat -> seq<T>, token: string, sizes: nat -> int, call: nat): seq<T>
    requires |rows| <= MAX_INT64 && AreAnswers(rows, key, answers)
    requires ParsePageToken(token).Ok?
    decreases |rows| - ParsePageToken(token).value
  {
    hide ParsePageToken;
    assert IsAnswer(rows, key, answers(call));
    PageStep(answers(call), sizes(call), token);
    var page := PageOf(answers(call), sizes(call), token).value;
    if page.nextToken == "" then page.items
    else page.items + WalkOver(rows, key, answers, page.nextToken, sizes, call + 1)
  }

  /** Each row is seen, and none twice. */
  ghost predicate SeesAll<T>(rows: seq<T>, seen: seq<T>) {
    Distinct(seen) && (forall x | x in seen :: x in rows) && (forall x | x in rows :: x in seen)
  }

  /** Whatever the answers, a walk with these page sizes sees all. */
  ghost predicate CompleteFor<T(!new)>(rows: seq<T>, key: T -> int, sizes: nat -> int)
    requires |rows| <= MAX_INT64
  {
    forall answers: nat -> seq<T> | AreAnswers(rows, key, answers) ::
      SeesAll(rows, WalkOver(rows, key, answers, "", sizes, 0))
  }

  /** The row a call starts with, as long as there is one. */
  function Boundary(sizes: nat -> int, call: nat): nat {
    if call == 0 then 0 else Boundary(sizes, call - 1) + NormalizePageSize(sizes(call - 1))
  }

  /** The last row of a page never ties with the first row of the next one. */
  ghost predicate NoTieAcross<T>(key: T -> int, sizes: nat -> int, listing: seq<T>) {
    forall call: nat | 0 < Boundary(sizes, call) < |listing| ::
      key(listing[Boundary(sizes, call) - 1]) != key(listing[Boundary(sizes, call)])
  }

  /** With given page sizes, pagination is complete exactly when no tie lies across the end of a
      page. Ties inside a page do no harm. */
  lemma {:induction false} CompleteExactly<T(!new)>(rows: seq<T>, key: T -> int, sizes: nat -> int, listing: seq<T>)
    requires |rows| <= MAX_INT64 && Distinct(rows) && IsAnswer(rows, key, listing)
    ensures CompleteFor(rows, key, sizes) <==> NoTieAcross(key, sizes, listing)
  {
    hide WalkOver, IsAnswer, SeesAll, Boundary;
    if NoTieAcross(key, sizes, listing) {
      forall answers: nat -> seq<T> | AreAnswers(rows, key, answers)
        ensures SeesAll(rows, WalkOver(rows, key, answers, "", sizes, 0))
      {
        WalkSeesAll(rows, key, answers, sizes, listing);
      }
    } else {
      var call: nat :| 0 < Boundary(sizes, call) < |listing|
                       && key(listing[Boundary(sizes, call) - 1]) == key(listing[Boundary(sizes, call)]);
      var answers := TiesRepeat(rows, key, sizes, listing, call);
      assert !SeesAll(rows, WalkOver(rows, key, answers, "", sizes, 0));
    }
  }

  predicate NoTies<T(==)>(rows: seq<T>, key: T -> int) {
    forall i, j | 0 <= i < j < |rows| :: key(rows[i]) != key(rows[j])
  }

  /** So pagination is complete for all page sizes exactly when no two rows have the same key. */
  lemma {:induction false} CompleteWithoutTies<T(!new)>(rows: seq<T>, key: T -> int)
    requires |rows| <= MAX_INT64 && Distinct(rows)
    ensures (forall sizes :: CompleteFor(rows, key, sizes)) <==> NoTies(rows, key)
  {
    hide CompleteFor, IsAnswer, Boundary;
    var listing := SomeAnswer(rows, key);
    forall sizes
      ensures CompleteFor(rows, key, sizes) <==> NoTieAcross(key, sizes, listing)
    {
      CompleteExactly(rows, key, sizes, listing);
    }
    if NoTies(rows, key) {
      StrictlySorted(rows, key, listing);
    } else {
      var p := AdjacentTie(rows, key, listing);
      OneAtATime(p + 1);
      assert !NoTieAcross(key, ONE_AT_A_TIME, listing);
      assert !CompleteFor(rows, key, ONE_AT_A_TIME);
    }
  }

  const ONE_AT_A_TIME: nat -> int := (call: nat) => 1

  lemma {:induction false} OneAtATime(call: nat)
    ensures Boundary(ONE_AT_A_TIME, call) == call
  {
    if call == 0 {
    } else {
      OneAtATime(call - 1);
    }
  }

  // Without ties across pages

  ghost function Elements<T>(s: seq<T>): set<T> {
    set x | x in s
  }

  lemma {:induction false} NumberOfElements<T>(s: seq<T>)
    requires Distinct(s)
    ensures |Elements(s)| == |s|
  {
    if s == [] {
      assert Elements(s) == {};
    } else {
      var init, last := s[..|s| - 1], s[|s| - 1];
      NumberOfElements(init);
      assert last !in init;
      assert Elements(s) == Elements(init) + {last};
    }
  }

  lemma {:induction false} Smaller<T>(a: set<T>, b: set<T>)
    requires a <= b
    ensures |a| <= |b| && (|a| == |b| ==> a == b)
  {
    assert b == a + (b - a);
    assert |b| == |a| + |b - a|;
  }

  /** The rows before a place where no tie lies are the same in every answer. */
  lemma {:induction false} SamePrefix<T>(rows: seq<T>, key: T -> int, s: seq<T>, other: seq<T>, b: nat)
    requires IsAnswer(rows, key, s) && IsAnswer(rows, key, other)
    requires b <= |rows| && (0 < b < |rows| ==> key(s[b - 1]) != key(s[b]))
    ensures Elements(s[..b]) == Elements(other[..b])
  {
    if b == |rows| {
      assert s[..b] == s && other[..b] == other;
    } else if b == 0 {
    } else {
      NumberOfElements(s[..b]);
      NumberOfElements(other[..b]);
      forall x
        ensures x in s[..b] <==> x in s && key(x) < key(s[b])
      {
      }
      forall i | 0 <= i < b
        ensures key(other[i]) < key(s[b])
      {
        SmallerComeFirst(rows, key, s, other, b, i);
      }
      forall x | x in other[..b]
        ensures x in s[..b]
      {
        assert x in other && x in s;
      }
      Smaller(Elements(other[..b]), Elements(s[..b]));
    }
  }

  /** In every answer the rows with smaller keys come first. */
  lemma {:induction false} SmallerComeFirst<T>(rows: seq<T>, key: T -> int, s: seq<T>, other: seq<T>, b: nat, i: nat)
    requires IsAnswer(rows, key, s) && IsAnswer(rows, key, other)
    requires i < b < |rows| && key(s[b - 1]) < key(s[b])
    ensures key(other[i]) < key(s[b])
  {
    NumberOfElements(s[..b]);
    NumberOfElements(other[..i]);
    if key(other[i]) >= key(s[b]) {
      forall x | x in s[..b]
        ensures x in other[..i]
      {
        var n :| 0 <= n < b && s[n] == x;
        assert key(s[n]) <= key(s[b - 1]);
        assert x in s && x in other;
        var m :| 0 <= m < |other| && other[m] == x;
        assert m < i;
      }
      Smaller(Elements(s[..b]), Elements(other[..i]));
    }
  }

  lemma {:induction false} WalkSeesAll<T>(
      rows: seq<T>, key: T -> int, answers: nat -> seq<T>, sizes: nat -> int, listing: seq<T>)
    requires |rows| <= MAX_INT64 && AreAnswers(rows, key, answers) && IsAnswer(rows, key, listing)
    requires NoTieAcross(key, sizes, listing)
    ensures SeesAll(rows, WalkOver(rows, key, answers, "", sizes, 0))
  {
    hide WalkOver, ParsePageToken, NewPageToken, NoTieAcross;
    TokenRoundTrip(0);
    WalkSeesRest(rows, key, answers, sizes, listing, 0);
    assert listing[0..] == listing;
  }

  /** From the start of a page on, a walk sees what every answer has from there on. */
  lemma {:induction false} WalkSeesRest<T>(
      rows: seq<T>, key: T -> int, answers: nat -> seq<T>, sizes: nat -> int, listing: seq<T>, call: nat)
    requires |rows| <= MAX_INT64 && AreAnswers(rows, key, answers) && IsAnswer(rows, key, listing)
    requires NoTieAcross(key, sizes, listing)
    requires Boundary(sizes, call) <= |rows|
    requires ParsePageToken(NewPageToken(Boundary(sizes, call))) == Ok(Boundary(sizes, call))
    ensures SeesAll(listing[Boundary(sizes, call)..],
                    WalkOver(rows, key, answers, NewPageToken(Boundary(sizes, call)), sizes, call))
    decreases |rows| - Boundary(sizes, call)
  {
    hide ParsePageToken, NewPageToken, PageOf, AreAnswers, IsAnswer, CutAt, SeesAll;
    var b, t := Boundary(sizes, call), answers(call);
    assert IsAnswer(rows, key, t) && |t| == |rows| by { AnswerOf(rows, key, answers, call); }
    var c := b + NormalizePageSize(sizes(call));
    assert Boundary(sizes, call + 1) == c;
    PageFrom(t, sizes(call), b);
    if c < |rows| {
      TokenRoundTrip(c);
      WalkSeesRest(rows, key, answers, sizes, listing, call + 1);
      var rest := WalkOver(rows, key, answers, NewPageToken(c), sizes, call + 1);
      assert WalkOver(rows, key, answers, NewPageToken(b), sizes, call) == t[b..c] + rest;
      PageThenRest(rows, key, sizes, listing, t, call, rest);
    } else {
      assert WalkOver(rows, key, answers, NewPageToken(b), sizes, call) == t[b..];
      LastPage(rows, key, sizes, listing, t, call);
    }
  }

  lemma {:induction false} AnswerOf<T>(rows: seq<T>, key: T -> int, answers: nat -> seq<T>, call: nat)
    requires AreAnswers(rows, key, answers)
    ensures IsAnswer(rows, key, answers(call)) && |answers(call)| == |rows|
  {
  }

  /** The page that starts at a row. */
  lemma {:induction false} PageFrom<T>(t: seq<T>, size: int, b: nat)
    requires |t| <= MAX_INT64 && b <= |t|
    requires ParsePageToken(NewPageToken(b)) == Ok(b)
    ensures var c := b + NormalizePageSize(size);
            PageOf(t, size, NewPageToken(b)) ==
            Ok(if c < |t| then Page(t[b..c], NewPageToken(c)) else Page(t[b..], ""))
    ensures forall c | 0 < c <= MAX_INT64 :: NewPageToken(c) != ""
  {
    hide ParsePageToken, NewPageToken, CutAt;
    CutStep(t, NormalizePageSize(size), b);
    CutWhole(t, NormalizePageSize(size), b);
    assert NewPageToken(0) == "" by { TokenRoundTrip(0); }
    forall c | 0 < c <= MAX_INT64
      ensures NewPageToken(c) != ""
    {
      TokenRoundTrip(c);
    }
  }

  lemma {:induction false} CutWhole<T>(t: seq<T>, pageSize: nat, b: nat)
    requires |t| <= MAX_INT64 && 1 <= pageSize && b <= |t|
    ensures CutAt(t, pageSize, b) ==
            if b + pageSize < |t| then Cut(t[b..b + pageSize], b + pageSize) else Cut(t[b..], 0)
  {
  }

  /** The rows between two places where no tie lies are the same in every answer. */
  lemma {:induction false} SameStretch<T>(rows: seq<T>, key: T -> int, s: seq<T>, other: seq<T>, b: nat, c: nat)
    requires IsAnswer(rows, key, s) && IsAnswer(rows, key, other) && b <= c <= |rows|
    requires (0 < b < |rows| ==> key(s[b - 1]) != key(s[b])) && (0 < c < |rows| ==> key(s[c - 1]) != key(s[c]))
    ensures Elements(s[b..c]) == Elements(other[b..c])
  {
    SamePrefix(rows, key, s, other, b);
    SamePrefix(rows, key, s, other, c);
    Difference(s, b, c);
    Difference(other, b, c);
  }

  lemma {:induction false} Difference<T>(s: seq<T>, b: nat, c: nat)
    requires Distinct(s) && b <= c <= |s|
    ensures Elements(s[b..c]) == Elements(s[..c]) - Elements(s[..b])
  {
    assert s[..c] == s[..b] + s[b..c];
    forall x
      ensures x in s[b..c] ==> x !in s[..b]
    {
      Apart(s, b, c, x);
    }
  }

  lemma {:induction false} PageThenRest<T>(
      rows: seq<T>, key: T -> int, sizes: nat -> int, listing: seq<T>, t: seq<T>, call: nat, rest: seq<T>)
    requires IsAnswer(rows, key, listing) && IsAnswer(rows, key, t) && NoTieAcross(key, sizes, listing)
    requires Boundary(sizes, call + 1) < |rows| && SeesAll(listing[Boundary(sizes, call + 1)..], rest)
    ensures SeesAll(listing[Boundary(sizes, call)..], t[Boundary(sizes, call)..Boundary(sizes, call + 1)] + rest)
  {
    hide Boundary, NoTieAcross;
    var b, c := Boundary(sizes, call), Boundary(sizes, call + 1);
    BoundariesGrow(sizes, call);
    NoTieAt(key, sizes, listing, call);
    NoTieAt(key, sizes, listing, call + 1);
    SameStretch(rows, key, listing, t, b, c);
    Joined(listing, t[b..c], rest, b, c);
  }

  lemma {:induction false} Joined<T>(listing: seq<T>, page: seq<T>, rest: seq<T>, b: nat, c: nat)
    requires Distinct(listing) && b <= c <= |listing| && Distinct(page) && Elements(page) == Elements(listing[b..c])
    requires SeesAll(listing[c..], rest)
    ensures SeesAll(listing[b..], page + rest)
  {
    assert listing[b..] == listing[b..c] + listing[c..];
    forall x | x in page
      ensures x !in rest
    {
      assert x in Elements(listing[b..c]);
      Apart(listing, c, |listing|, x);
      assert listing[c..|listing|] == listing[c..] && listing[..c] == listing[..b] + listing[b..c];
    }
    DistinctBoth(page, rest);
    forall x
      ensures x in page + rest <==> x in listing[b..]
    {
      assert x in page <==> x in Elements(page);
      assert x in listing[b..c] <==> x in Elements(listing[b..c]);
    }
  }

  lemma {:induction false} BoundariesGrow(sizes: nat -> int, call: nat)
    ensures Boundary(sizes, call) < Boundary(sizes, call + 1)
  {
  }

  lemma {:induction false} NoTieAt<T>(key: T -> int, sizes: nat -> int, listing: seq<T>, call: nat)
    requires NoTieAcross(key, sizes, listing)
    ensures var b := Boundary(sizes, call); 0 < b < |listing| ==> key(listing[b - 1]) != key(listing[b])
  {
  }

  lemma {:induction false} Apart<T>(s: seq<T>, b: nat, c: nat, x: T)
    requires Distinct(s) && b <= c <= |s|
    ensures x in s[b..c] ==> x !in s[..b]
  {
  }

  lemma {:induction false} DistinctBoth<T>(a: seq<T>, b: seq<T>)
    requires Distinct(a) && Distinct(b) && forall x | x in a :: x !in b
    ensures Distinct(a + b)
  {
    forall i, j | 0 <= i < j < |a + b|
      ensures (a + b)[i] != (a + b)[j]
    {
      if i < |a| <= j {
        assert a[i] in a && b[j - |a|] in b;
      }
    }
  }

  lemma {:induction false} LastPage<T>(
      rows: seq<T>, key: T -> int, sizes: nat -> int, listing: seq<T>, t: seq<T>, call: nat)
    requires IsAnswer(rows, key, listing) && IsAnswer(rows, key, t) && NoTieAcross(key, sizes, listing)
    requires Boundary(sizes, call) <= |rows|
    ensures SeesAll(listing[Boundary(sizes, call)..], t[Boundary(sizes, call)..])
  {
    hide Boundary, NoTieAcross;
    var b := Boundary(sizes, call);
    NoTieAt(key, sizes, listing, call);
    SameStretch(rows, key, listing, t, b, |rows|);
    assert t[b..|rows|] == t[b..] && listing[b..|rows|] == listing[b..];
    forall x
      ensures x in t[b..] <==> x in listing[b..]
    {
      assert x in Elements(t[b..]) <==> x in Elements(listing[b..]);
    }
  }

  lemma {:induction false} StrictlySorted<T>(rows: seq<T>, key: T -> int, s: seq<T>)
    requires NoTies(rows, key) && IsAnswer(rows, key, s)
    ensures forall i, j | 0 <= i < j < |s| :: key(s[i]) < key(s[j])
  {
    forall i, j | 0 <= i < j < |s|
      ensures key(s[i]) < key(s[j])
    {
      assert s[i] in s && s[j] in s;
      var a :| 0 <= a < |rows| && rows[a] == s[i];
      var b :| 0 <= b < |rows| && rows[b] == s[j];
      assert key(rows[a]) != key(rows[b]);
    }
  }

  // With a tie across pages

  /** With a tie across the end of a page there are answers for which a walk sees a row twice, and
      so misses another: those in which the tied rows swap places between the two calls. */
  lemma {:induction false} TiesRepeat<T>(rows: seq<T>, key: T -> int, sizes: nat -> int, listing: seq<T>, call: nat)
    returns (answers: nat -> seq<T>)
    requires |rows| <= MAX_INT64 && IsAnswer(rows, key, listing) && 0 < Boundary(sizes, call) < |listing|
    requires key(listing[Boundary(sizes, call) - 1]) == key(listing[Boundary(sizes, call)])
    ensures AreAnswers(rows, key, answers)
    ensures !SeesAll(rows, WalkOver(rows, key, answers, "", sizes, 0))
  {
    hide WalkOver, ParsePageToken, Boundary;
    var b := Boundary(sizes, call);
    var swapped := listing[b - 1 := listing[b]][b := listing[b - 1]];
    SwappedIsAnswer(rows, key, listing, b - 1);
    answers := (c: nat) => if c < call then listing else swapped;
    assert ParsePageToken("") == Ok(0) && NewPageToken(0) == "" by { TokenRoundTrip(0); }
    assert Boundary(sizes, 0) == 0 by { StartsAtZero(sizes); }
    WalkAcross(rows, key, answers, sizes, listing, swapped, call, 0);
    var seen := WalkOver(rows, key, answers, "", sizes, 0);
    assert seen == listing[0..b] + swapped[b..];
    assert seen[b - 1] == listing[b - 1] && seen[b] == listing[b - 1];
  }

  lemma {:induction false} StartsAtZero(sizes: nat -> int)
    ensures Boundary(sizes, 0) == 0
  {
  }

  lemma {:induction false} LaterBoundary(sizes: nat -> int, early: nat, late: nat)
    requires early <= late
    ensures Boundary(sizes, early) <= Boundary(sizes, late)
    decreases late
  {
    if early == late {
    } else {
      LaterBoundary(sizes, early, late - 1);
    }
  }

  lemma {:induction false} WalkAcross<T>(
      rows: seq<T>, key: T -> int, answers: nat -> seq<T>, sizes: nat -> int, s: seq<T>, swapped: seq<T>,
      call: nat, at: nat)
    requires |rows| <= MAX_INT64 && AreAnswers(rows, key, answers)
    requires at <= call && Boundary(sizes, call) < |rows| && Boundary(sizes, at) <= Boundary(sizes, call)
    requires |s| == |swapped| == |rows| && forall c: nat :: answers(c) == if c < call then s else swapped
    requires ParsePageToken(NewPageToken(Boundary(sizes, at))) == Ok(Boundary(sizes, at))
    ensures WalkOver(rows, key, answers, NewPageToken(Boundary(sizes, at)), sizes, at) ==
            s[Boundary(sizes, at)..Boundary(sizes, call)] + swapped[Boundary(sizes, call)..]
    decreases call - at
  {
    hide ParsePageToken, NewPageToken, IsAnswer, AreAnswers, PageOf;
    var b := Boundary(sizes, at);
    if at == call {
      WalkOverOne(rows, key, answers, swapped, NewPageToken(b), sizes, at);
      assert s[b..b] == [];
    } else {
      var c := Boundary(sizes, at + 1);
      LaterBoundary(sizes, at + 1, call);
      assert answers(at) == s;
      PageFrom(s, sizes(at), b);
      TokenRoundTrip(c);
      WalkAcross(rows, key, answers, sizes, s, swapped, call, at + 1);
      assert s[b..Boundary(sizes, call)] == s[b..c] + s[c..Boundary(sizes, call)];
    }
  }

  /** When every call gets the same answer from some point on, so does the walk. */
  lemma {:induction false} WalkOverOne<T>(
      rows: seq<T>, key: T -> int, answers: nat -> seq<T>, listing: seq<T>, token: string, sizes: nat -> int, call: nat)
    requires |rows| <= MAX_INT64 && AreAnswers(rows, key, answers) && |listing| == |rows|
    requires ParsePageToken(token).Ok? && forall c: nat | c >= call :: answers(c) == listing
    ensures var offset := ParsePageToken(token).value;
            WalkOver(rows, key, answers, token, sizes, call) == if offset <= |listing| then listing[offset..] else []
    decreases |rows| - ParsePageToken(token).value
  {
    hide ParsePageToken, IsAnswer, AreAnswers, PageOf;
    PageStep(listing, sizes(call), token);
    var offset := ParsePageToken(token).value;
    var page := PageOf(listing, sizes(call), token).value;
    assert answers(call) == listing;
    if page.nextToken == "" {
    } else {
      WalkOverOne(rows, key, answers, listing, page.nextToken, sizes, call + 1);
      assert listing[offset..] == page.items + listing[offset + |page.items|..];
    }
  }

  lemma {:induction false} AdjacentTie<T>(rows: seq<T>, key: T -> int, s: seq<T>) returns (p: nat)
    requires !NoTies(rows, key) && Distinct(rows) && IsAnswer(rows, key, s)
    ensures p + 1 < |s| && key(s[p]) == key(s[p + 1])
  {
    var i, j :| 0 <= i < j < |rows| && key(rows[i]) == key(rows[j]);
    assert rows[i] in rows && rows[j] in rows;
    var a :| 0 <= a < |s| && s[a] == rows[i];
    var b :| 0 <= b < |s| && s[b] == rows[j];
    p := if a < b then a else b;
    var q := if a < b then b else a;
    assert key(s[p]) <= key(s[p + 1]) <= key(s[q]);
  }

  lemma {:induction false} SwappedIsAnswer<T>(rows: seq<T>, key: T -> int, s: seq<T>, p: nat)
    requires IsAnswer(rows, key, s) && p + 1 < |s| && key(s[p]) == key(s[p + 1])
    ensures IsAnswer(rows, key, s[p := s[p + 1]][p + 1 := s[p]])
  {
    var swapped := s[p := s[p + 1]][p + 1 := s[p]];
    forall x
      ensures x in swapped <==> x in s
    {
      if x in s {
        var i :| 0 <= i < |s| && s[i] == x;
        assert swapped[if i == p then p + 1 else if i == p + 1 then p else i] == x;
      }
    }
  }

  /** Rows can always be sorted. */
  lemma {:induction false} SomeAnswer<T>(rows: seq<T>, key: T -> int) returns (s: seq<T>)
    requires Distinct(rows)
    ensures IsAnswer(rows, key, s)
  {
    if rows == [] {
      s := [];
    } else {
      var rest := SomeAnswer(rows[1..], key);
      assert rows[0] !in rest;
      s := Inserted(rest, rows[0], key);
      assert rows == [rows[0]] + rows[1..];
    }
  }

  lemma {:induction false} Inserted<T>(s: seq<T>, x: T, key: T -> int) returns (r: seq<T>)
    requires Distinct(s) && x !in s
    requires forall i, j | 0 <= i < j < |s| :: key(s[i]) <= key(s[j])
    ensures |r| == |s| + 1 && Distinct(r) && forall y :: y in r <==> y in s || y == x
    ensures forall i, j | 0 <= i < j < |r| :: key(r[i]) <= key(r[j])
  {
    if s == [] || key(x) <= key(s[0]) {
      r := [x] + s;
    } else {
      assert s[0] !in s[1..];
      var rest := Inserted(s[1..], x, key);
      r := [s[0]] + rest;
      forall y
        ensures y in r <==> y in s || y == x
      {
        assert y in s <==> y == s[0] || y in s[1..];
      }
      forall i, j | 0 <= i < j < |r|
        ensures key(r[i]) <= key(r[j])
      {
        assert r[j] in rest;
        assert s[0] in s;
      }
    }
  }
}
