/** The public room directory (clientapi/routing/directory_public.go): building the cached list,
    and paging through it with string tokens. */
module PublicRoomPaging {
  import opened Prelude

  datatype Room = Room(id: string, name: string, topic: string, alias: string, joined: int)

  const INT64_MAX := 0x7fff_ffff_ffff_ffff
  const INT64_SPAN := 0x1_0000_0000_0000_0000

  // ---- tokens ----

  function Digit(d: nat): (c: char)
    requires d < 10
    ensures c as int == '0' as int + d
  {
    ['0', '1', '2', '3', '4', '5', '6', '7', '8', '9'][d]
  }

  function DigitValue(c: char): (d: Option<nat>)
    ensures d.Some? ==> d.value < 10
  {
    if '0' <= c <= '9' then Some((c as int) - ('0' as int)) else None
  }

  /** strconv.Itoa, for the non-negative numbers that become tokens. */
  function Itoa(n: nat): string {
    if n < 10 then [Digit(n)] else Itoa(n / 10) + [Digit(n % 10)]
  }

  function ParseDigits(s: string): Option<nat> {
    if s == "" then None
    else
      var init, last := s[..|s| - 1], DigitValue(s[|s| - 1]);
      if last.None? then None
      else if init == "" then last
      else
        var high := ParseDigits(init);
        if high.None? then None else Some(10 * high.value + last.value)
  }

  /** strconv.ParseInt in base 10 for 64 bits; None stands for a syntax or range error. */
  function ParseInt(s: string): Option<int> {
    if s == "" then None
    else
      var signed := s[0] == '-' || s[0] == '+';
      var digits := ParseDigits(if signed then s[1..] else s);
      if digits.None? then None
      else
        var n: int := digits.value;
        var v := if s[0] == '-' then -n else n;
        if -INT64_MAX - 1 <= v <= INT64_MAX then Some(v) else None
  }

  lemma {:induction false} ItoaDigits(n: nat)
    ensures ParseDigits(Itoa(n)) == Some(n)
    ensures Itoa(n) != "" && '0' <= Itoa(n)[0] <= '9'
  {
    if n >= 10 {
      ItoaDigits(n / 10);
      assert Itoa(n)[..|Itoa(n)| - 1] == Itoa(n / 10);
    }
  }

  /** A number in base 10 without a sign. */
  predicate Numeral(s: string) {
    s != "" && forall i :: 0 <= i < |s| ==> '0' <= s[i] <= '9'
  }

  lemma {:induction false} NumeralsAreRead(s: string)
    ensures ParseDigits(s).Some? <==> Numeral(s)
  {
    if s != "" {
      var init, last := s[..|s| - 1], s[|s| - 1];
      assert s == init + [last];
      if init != "" {
        NumeralsAreRead(init);
        assert Numeral(s) <==> Numeral(init) && '0' <= last <= '9';
      }
    }
  }

  /** Leading zeros do not count, */
  lemma {:induction false} LeadingZero(s: string)
    requires s != ""
    ensures ParseDigits("0" + s) == ParseDigits(s)
  {
    assert ("0" + s)[..|s|] == "0" + s[..|s| - 1];
    if |s| > 1 { LeadingZero(s[..|s| - 1]); }
  }

  /** and a numeral without them is written back as it was. */
  lemma {:induction false} NumeralRoundTrip(s: string)
    requires Numeral(s) && s[0] != '0'
    ensures ParseDigits(s).Some? && ParseDigits(s).value > 0 && Itoa(ParseDigits(s).value) == s
  {
    var init, last := s[..|s| - 1], s[|s| - 1];
    assert s == init + [last];
    assert Digit(DigitValue(last).value) == last;
    if init != "" {
      NumeralRoundTrip(init);
      OneMoreDigit(ParseDigits(init).value, DigitValue(last).value);
    }
  }

  lemma OneMoreDigit(n: nat, d: nat)
    requires n > 0 && d < 10
    ensures Itoa(10 * n + d) == Itoa(n) + [Digit(d)]
  {
  }

  /** What ParseInt reads: a numeral with or without a sign, if it fits into 64 bits. */
  lemma ParseIntReads(d: string)
    requires Numeral(d)
    ensures ParseDigits(d).Some?
    ensures var n := ParseDigits(d).value;
            && ParseInt(d) == ParseInt("+" + d) == (if n <= 0x7fff_ffff_ffff_ffff then Some(n as int) else None)
            && ParseInt("-" + d) == (if n <= 0x8000_0000_0000_0000 then Some(-(n as int)) else None)
  {
    NumeralsAreRead(d);
    assert ("+" + d)[1..] == d && ("-" + d)[1..] == d;
  }

  lemma ParseIntReadsNothingElse(s: string)
    ensures ParseInt(s).Some? ==> Numeral(s) || (s != "" && s[0] in "+-" && Numeral(s[1..]))
  {
    NumeralsAreRead(s);
    if s != "" { NumeralsAreRead(s[1..]); }
  }

  function Token(n: nat): string {
    "T" + Itoa(n)
  }

  /** strings.TrimPrefix(since, "T"). */
  function Strip(since: string): string {
    if since != "" && since[0] == 'T' then since[1..] else since
  }

  lemma TokenRoundTrip(n: nat)
    requires n <= INT64_MAX
    ensures ParseInt(Strip(Token(n))) == Some(n)
    ensures Strip(Token(n)) != ""
  {
    ItoaDigits(n);
    assert Strip(Token(n)) == Itoa(n);
  }

  // ---- slicing ----

  function Wrap64(x: int): int {
    (x + INT64_MAX + 1) % INT64_SPAN - INT64_MAX - 1
  }

  datatype Slice = Slice(subset: seq<Room>, prev: int, next: int) | BoundsPanic

  function SliceInto(rooms: seq<Room>, since: int, limit: int): (r: Slice) {
    var prev := if since > 0 then Wrap64(since - limit) else -1;
    var nextIndex := Wrap64(since + limit);
    var next := if |rooms| > nextIndex then nextIndex else -1;
    var lo := if since < 0 then 0 else since;
    var hi := if nextIndex > |rooms| then |rooms| else nextIndex;
    if lo <= hi then Slice(rooms[lo..hi], prev, next) else BoundsPanic
  }

  predicate IsInt64(x: int) {
    -INT64_MAX - 1 <= x <= INT64_MAX
  }

  predicate IsInt16(x: int) {
    -0x8000 <= x <= 0x7fff
  }

  /** Slicing is defined exactly for positions inside the list with a non-negative limit, or for
      negative positions that the limit lifts back to the start. */
  lemma SliceIntoDefined(rooms: seq<Room>, since: int, limit: int)
    requires IsInt64(since) && IsInt16(limit) && |rooms| <= INT64_MAX - 0x8000
    ensures SliceInto(rooms, since, limit).Slice? <==>
            if since >= 0 then since <= |rooms| && limit >= 0 else Wrap64(since + limit) >= 0
  {
  }

  /** A negative position that the limit lifts back: the list from its start. */
  lemma SliceFromBelow(rooms: seq<Room>, since: int, limit: int)
    requires IsInt64(since) && IsInt16(limit) && |rooms| <= INT64_MAX - 0x8000
    requires since < 0 <= since + limit
    ensures SliceInto(rooms, since, limit) ==
            if since + limit < |rooms| then Slice(rooms[..since + limit], -1, since + limit) else Slice(rooms, -1, -1)
  {
    assert Wrap64(since + limit) == since + limit;
    assert rooms[0..|rooms|] == rooms;
  }

  // ---- filtering ----

  predicate Contains(text: string, term: string) {
    exists i :: 0 <= i <= |text| && term <= text[i..]
  }

  /** strings.ToLower. */
  type Lower = string -> string

  predicate Matches(room: Room, term: string, lower: Lower) {
    || Contains(lower(room.name), lower(term))
    || Contains(lower(room.topic), lower(term))
    || Contains(lower(room.alias), lower(term))
  }

  /** The rooms that match, in order; an empty search term matches everything. */
  function Filtered(rooms: seq<Room>, term: string, lower: Lower): (r: seq<Room>)
    ensures |r| <= |rooms|
    ensures forall room :: room in r <==> room in rooms && (term == "" || Matches(room, term, lower))
  {
    if rooms == [] then []
    else
      var last := rooms[|rooms| - 1];
      var rest := Filtered(rooms[..|rooms| - 1], term, lower);
      assert rooms == rooms[..|rooms| - 1] + [last];
      if term == "" || Matches(last, term, lower) then rest + [last] else rest
  }

  lemma {:induction false} FilteredAll(rooms: seq<Room>, lower: Lower)
    ensures Filtered(rooms, "", lower) == rooms
  {
    if rooms != [] { FilteredAll(rooms[..|rooms| - 1], lower); }
  }

  /** Filtering looks at each room on its own, and keeps the order. */
  lemma {:induction false} FilteredInTurn(x: seq<Room>, y: seq<Room>, room: Room, term: string, lower: Lower)
    ensures Filtered(x + y, term, lower) == Filtered(x, term, lower) + Filtered(y, term, lower)
    ensures Filtered([], term, lower) == []
    ensures Filtered([room], term, lower) == if term == "" || Matches(room, term, lower) then [room] else []
  {
    assert [room][..0] == [];
    if y == [] {
      assert x + y == x;
    } else {
      assert (x + y)[..|x + y| - 1] == x + y[..|y| - 1];
      FilteredInTurn(x, y[..|y| - 1], room, term, lower);
    }
  }

  method FilterRooms(rooms: seq<Room>, term: string, lower: Lower) returns (result: seq<Room>)
    ensures result == Filtered(rooms, term, lower)
  {
    if term == "" {
      FilteredAll(rooms, lower);
      return rooms;
    }
    result := [];
    for i := 0 to |rooms|
      invariant result == Filtered(rooms[..i], term, lower)
    {
      assert rooms[..i + 1][..i] == rooms[..i];
      if Matches(rooms[i], term, lower) {
        result := result + [rooms[i]];
      }
    }
    assert rooms[..|rooms|] == rooms;
  }

  // ---- the cached list ----

  ghost predicate DistinctRooms(s: seq<Room>) {
    forall i, j :: 0 <= i < j < |s| ==> s[i].id != s[j].id
  }

  function IDs(s: seq<Room>): (r: set<string>) {
    set room | room in s :: room.id
  }

  /** rand.Shuffle: swap every position with an arbitrary earlier one. */
  method Shuffle(rooms: seq<Room>) returns (out: seq<Room>)
    ensures multiset(out) == multiset(rooms)
  {
    out := rooms;
    for i := 0 to |rooms|
      invariant |out| == |rooms| && multiset(out) == multiset(rooms)
    {
      var j :| 0 <= j <= i;
      out := out[i := out[j]][j := out[i]];
    }
  }

  method DedupeAndShuffle(rooms: seq<Room>) returns (out: seq<Room>)
    ensures DistinctRooms(out) && IDs(out) == IDs(rooms)
    ensures forall room :: room in out ==> room in rooms
  {
    var shuffled := Shuffle(rooms);
    assert forall room :: room in shuffled <==> room in multiset(shuffled);
    assert forall room :: room in rooms <==> room in multiset(rooms);
    out := [];
    var haveRoomIDs: set<string> := {};
    for i := 0 to |shuffled|
      invariant haveRoomIDs == IDs(out) == IDs(shuffled[..i])
      invariant DistinctRooms(out)
      invariant forall room :: room in out ==> room in shuffled
    {
      var r := shuffled[i];
      assert shuffled[..i + 1] == shuffled[..i] + [r];
      if r.id !in haveRoomIDs {
        assert forall k :: 0 <= k < |out| ==> out[k].id in IDs(out);
        haveRoomIDs := haveRoomIDs + {r.id};
        out := out + [r];
      }
    }
    assert shuffled[..|shuffled|] == shuffled;
  }

  ghost predicate BiggestFirst(s: seq<Room>) {
    forall i, j :: 0 <= i < j < |s| ==> s[i].joined >= s[j].joined
  }

  function InsertBySize(x: Room, s: seq<Room>): (r: seq<Room>)
    requires BiggestFirst(s) && DistinctRooms(s) && x.id !in IDs(s)
    ensures BiggestFirst(r) && DistinctRooms(r)
    ensures forall room :: room in r <==> room == x || room in s
  {
    if s == [] then [x]
    else if x.joined >= s[0].joined then
      PutInFront(x, s);
      [x] + s
    else
      assert s == [s[0]] + s[1..];
      var t := InsertBySize(x, s[1..]);
      PutInFront(s[0], t);
      [s[0]] + t
  }

  lemma PutInFront(x: Room, s: seq<Room>)
    requires BiggestFirst(s) && DistinctRooms(s)
    requires forall room :: room in s ==> room.id != x.id && room.joined <= x.joined
    ensures BiggestFirst([x] + s) && DistinctRooms([x] + s)
    ensures forall room :: room in [x] + s <==> room == x || room in s
  {
  }

  /** Stands for sort.SliceStable by member count, big to small. */
  function SortBySize(s: seq<Room>): (r: seq<Room>)
    requires DistinctRooms(s)
    ensures BiggestFirst(r) && DistinctRooms(r)
    ensures forall room :: room in r <==> room in s
  {
    if s == [] then []
    else
      var t := SortBySize(s[1..]);
      assert s == [s[0]] + s[1..];
      assert forall room :: room in t ==> room in s[1..] && room.id != s[0].id;
      InsertBySize(s[0], t)
  }

  datatype Request = Request(since: string, limit: int, searchTerm: string)

  datatype Response =
    | Page(chunk: seq<Room>, prevBatch: string, nextBatch: string, total: nat)
    | BadSince
    | Panicked

  function Limit(req: Request): int {
    if req.limit == 0 then 50 else req.limit
  }

  function Offset(since: string): Option<int> {
    if Strip(since) == "" then Some(0) else ParseInt(Strip(since))
  }

  /** A way to write positions as tokens and to read them back. */
  datatype Scheme = Scheme(token: nat -> string, offset: string -> Option<int>)

  const TOKENS := Scheme((n: nat) => Token(n), since => Offset(since))

  ghost predicate RoundTrips(sc: Scheme) {
    && sc.offset("") == Some(0)
    && forall n: nat :: n <= INT64_MAX ==> sc.offset(sc.token(n)) == Some(n) && sc.token(n) != ""
  }

  /** The tokens handed out, and no token at all, are read back as the position they stand for. */
  lemma TokensRoundTrip()
    ensures RoundTrips(TOKENS)
  {
    forall n: nat | n <= INT64_MAX
      ensures TOKENS.offset(TOKENS.token(n)) == Some(n)
    {
      TokenRoundTrip(n);
    }
    assert Strip("") == "";
  }

  function Batch(sc: Scheme, position: int): string {
    if position >= 0 then sc.token(position) else ""
  }

  /** One page of an already filtered list. */
  function PageIn(sc: Scheme, list: seq<Room>, total: nat, limit: int, since: string): (r: Response) {
    if sc.offset(since).None? then BadSince
    else
      match SliceInto(list, sc.offset(since).value, limit)
      case BoundsPanic => Panicked
      case Slice(subset, prev, next) => Page(subset, Batch(sc, prev), Batch(sc, next), total)
  }

  /** The reply to a request, given the list in force. */
  function PageFor(cache: seq<Room>, req: Request, lower: Lower): (r: Response) {
    PageIn(TOKENS, Filtered(cache, req.searchTerm, lower), |cache|, Limit(req), req.since)
  }

  class Directory {
    var publicRoomsCache: seq<Room>

    constructor ()
      ensures publicRoomsCache == []
    {
      publicRoomsCache := [];
    }

    /** `published` is the roomserver's answer.  On success every room ID known to either source is
        listed exactly once, biggest room first; on failure the old list stays. */
    method RefreshPublicRoomCache(published: Option<seq<Room>>, extra: seq<Room>) returns (rooms: seq<Room>)
      modifies this
      ensures rooms == publicRoomsCache
      ensures published.None? ==> publicRoomsCache == old(publicRoomsCache)
      ensures published.Some? ==>
                && DistinctRooms(rooms) && BiggestFirst(rooms)
                && IDs(rooms) == IDs(published.value) + IDs(extra)
                && forall room :: room in rooms ==> room in published.value || room in extra
    {
      if published.Some? {
        var all := published.value + extra;
        var deduped := DedupeAndShuffle(all);
        publicRoomsCache := SortBySize(deduped);
        assert IDs(publicRoomsCache) == IDs(deduped);
        assert IDs(all) == IDs(published.value) + IDs(extra);
      }
      rooms := publicRoomsCache;
    }

    /** A request from the start renews the list, if the roomserver answers; the reply is a page of the
        list as it then is. */
    method PublicRooms(req: Request, published: Option<seq<Room>>, extra: seq<Room>, lower: Lower) returns (r: Response)
      modifies this
      ensures r == PageFor(publicRoomsCache, req, lower)
      ensures Strip(req.since) != "" || published.None? ==> publicRoomsCache == old(publicRoomsCache)
      ensures Strip(req.since) == "" && published.Some? ==>
                && DistinctRooms(publicRoomsCache) && BiggestFirst(publicRoomsCache)
                && IDs(publicRoomsCache) == IDs(published.value) + IDs(extra)
                && forall room :: room in publicRoomsCache ==> room in published.value || room in extra
    {
      var since := Strip(req.since);
      var limit := if req.limit == 0 then 50 else req.limit;
      var offset := ParseInt(since);
      if offset.None? && |since| > 0 { return BadSince; }
      var rooms := publicRoomsCache;
      if since == "" {
        rooms := RefreshPublicRoomCache(published, extra);
      }
      var total := |rooms|;
      rooms := FilterRooms(rooms, req.searchTerm, lower);
      match SliceInto(rooms, if offset.None? then 0 else offset.value, limit)
      case BoundsPanic => r := Panicked;
      case Slice(chunk, prev, next) =>
        var prevBatch, nextBatch := "", "";
        if prev >= 0 { prevBatch := Token(prev); }
        if next >= 0 { nextBatch := Token(next); }
        r := Page(chunk, prevBatch, nextBatch, total);
    }
  }

  // ---- following the tokens ----

  function Min(x: int, y: int): int {
    if x < y then x else y
  }

  /** The page that starts at position `o`, and the tokens it carries. */
  ghost predicate IsPageAt(sc: Scheme, page: Response, list: seq<Room>, o: nat, limit: int) {
    && 0 < limit && o <= |list|
    && page.Page?
    && page.chunk == list[o..Min(o + limit, |list|)]
    && page.prevBatch == Batch(sc, if o > 0 then o - limit else -1)
    && page.nextBatch == Batch(sc, if o + limit < |list| then o + limit else -1)
  }

  lemma SliceAt(list: seq<Room>, o: nat, limit: int)
    requires |list| <= INT64_MAX - 0x8000 && 0 < limit <= 0x7fff && o <= |list|
    ensures SliceInto(list, o, limit) ==
            Slice(list[o..Min(o + limit, |list|)],
                  if o > 0 then o - limit else -1,
                  if o + limit < |list| then o + limit else -1)
  {
  }

  lemma PageAt(sc: Scheme, list: seq<Room>, total: nat, size: int, since: string, o: nat)
    requires |list| <= INT64_MAX - 0x8000 && 0 < size <= 0x7fff && o <= |list| && sc.offset(since) == Some(o)
    ensures PageIn(sc, list, total, size, since) ==
            Page(if o + size < |list| then list[o..o + size] else list[o..],
                 if o > 0 && o >= size then sc.token(o - size) else "",
                 if o + size < |list| then sc.token(o + size) else "",
                 total)
  {
    SliceAt(list, o, size);
  }

  /** The tokens: a position is given as a numeral, with or without the leading "T", or by nothing at
      all. */
  lemma TokensExactly(d: string)
    requires Numeral(d) && ParseDigits(d).Some? && ParseDigits(d).value <= INT64_MAX
    ensures TOKENS.offset(d) == TOKENS.offset("T" + d) == Some(ParseDigits(d).value)
    ensures TOKENS.offset("") == TOKENS.offset("T") == Some(0)
    ensures forall n: nat :: TOKENS.token(n) == "T" + Itoa(n)
  {
    ParseIntReads(d);
    assert ("T" + d)[1..] == d && "T"[1..] == "";
  }

  /** Without a limit there are fifty rooms to a page. */
  lemma PageForExactly(cache: seq<Room>, req: Request, lower: Lower, o: nat)
    requires |cache| <= INT64_MAX - 0x8000 && 0 <= req.limit <= 0x7fff
    requires TOKENS.offset(req.since) == Some(o) && o <= |Filtered(cache, req.searchTerm, lower)|
    ensures var list := Filtered(cache, req.searchTerm, lower);
            var size := if req.limit == 0 then 50 else req.limit;
            PageFor(cache, req, lower) ==
            Page(if o + size < |list| then list[o..o + size] else list[o..],
                 if o > 0 && o >= size then TOKENS.token(o - size) else "",
                 if o + size < |list| then TOKENS.token(o + size) else "",
                 |cache|)
  {
    PageAt(TOKENS, Filtered(cache, req.searchTerm, lower), |cache|, Limit(req), req.since, o);
  }

  /** And anything else that is not a signed number is an error. */
  lemma PageForBad(cache: seq<Room>, req: Request, lower: Lower)
    ensures PageFor(cache, req, lower).BadSince? <==>
            Strip(req.since) != "" && ParseInt(Strip(req.since)).None?
  {
  }

  /** How the directory answers tokens over a fixed list. */
  function Replies(sc: Scheme, list: seq<Room>, total: nat, limit: int): string -> Response {
    since => PageIn(sc, list, total, limit, since)
  }

  ghost predicate ServesAt(reply: string -> Response, sc: Scheme, list: seq<Room>, limit: int, o: nat) {
    sc.token(o) != "" && IsPageAt(sc, reply(sc.token(o)), list, o, limit)
  }

  /** Every token that stands for a position is answered with the page at that position, and no
      token with the first page. */
  ghost predicate Serves(reply: string -> Response, sc: Scheme, list: seq<Room>, limit: int) {
    && 0 < limit
    && (forall o: nat :: o <= |list| ==> ServesAt(reply, sc, list, limit, o))
    && reply("") == reply(sc.token(0))
  }

  lemma DirectoryServes(sc: Scheme, list: seq<Room>, total: nat, limit: int)
    requires RoundTrips(sc) && |list| <= INT64_MAX - 0x8000 && 0 < limit <= 0x7fff
    ensures Serves(Replies(sc, list, total, limit), sc, list, limit)
  {
    var reply := Replies(sc, list, total, limit);
    forall o: nat | o <= |list|
      ensures ServesAt(reply, sc, list, limit, o)
    {
      assert sc.offset(sc.token(o)) == Some(o);
      SliceAt(list, o, limit);
    }
    assert sc.offset(sc.token(0)) == Some(0);
  }

  lemma LastPage(reply: string -> Response, sc: Scheme, list: seq<Room>, limit: int, o: nat)
    requires Serves(reply, sc, list, limit) && o <= |list|
    ensures reply(sc.token(o)).Page? && (reply(sc.token(o)).nextBatch == "" <==> o + limit >= |list|)
  {
    assert ServesAt(reply, sc, list, limit, o);
    if o + limit < |list| { assert ServesAt(reply, sc, list, limit, o + limit); }
  }

  /** One `next` step: the following page continues where this one stops and points back to it. */
  lemma NextPage(reply: string -> Response, sc: Scheme, list: seq<Room>, limit: int, o: nat)
    requires Serves(reply, sc, list, limit) && o <= |list|
    requires reply(sc.token(o)).Page? && reply(sc.token(o)).nextBatch != ""
    ensures o + limit < |list| && reply(sc.token(o)).nextBatch == sc.token(o + limit)
    ensures var page := reply(sc.token(o + limit));
            && page.Page? && page.prevBatch == sc.token(o)
            && list[..Min(o + limit, |list|)] + page.chunk == list[..Min(o + limit + limit, |list|)]
  {
    assert ServesAt(reply, sc, list, limit, o);
    assert o + limit < |list|;
    assert ServesAt(reply, sc, list, limit, o + limit);
  }

  ghost function Concat(pages: seq<Response>): (r: seq<Room>)
  {
    if pages == [] then []
    else Concat(pages[..|pages| - 1]) + if pages[|pages| - 1].Page? then pages[|pages| - 1].chunk else []
  }

  lemma {:induction false} FilteredKeepsUnique(rooms: seq<Room>, term: string, lower: Lower)
    requires DistinctRooms(rooms)
    ensures DistinctRooms(Filtered(rooms, term, lower))
  {
    if rooms != [] {
      var init, last := rooms[..|rooms| - 1], rooms[|rooms| - 1];
      FilteredKeepsUnique(init, term, lower);
      assert forall room :: room in Filtered(init, term, lower) ==> room in init && room.id != last.id;
    }
  }

  /** Each page is what the page before it points to with `next`, and points back to it with
      `prev`. */
  ghost predicate Linked(pages: seq<Response>, reply: string -> Response) {
    && (forall i :: 0 <= i < |pages| ==> pages[i].Page?)
    && forall i :: 0 < i < |pages| ==> LinkedAt(pages, reply, i)
  }

  ghost predicate LinkedAt(pages: seq<Response>, reply: string -> Response, i: nat)
    requires 0 < i < |pages|
  {
    && pages[i - 1].Page? && pages[i].Page?
    && pages[i] == reply(pages[i - 1].nextBatch) && pages[i - 1] == reply(pages[i].prevBatch)
  }

  lemma LinkOneMore(pages: seq<Response>, page: Response, reply: string -> Response)
    requires Linked(pages, reply) && pages != [] && page.Page?
    requires page == reply(pages[|pages| - 1].nextBatch) && pages[|pages| - 1] == reply(page.prevBatch)
    ensures Linked(pages + [page], reply) && Concat(pages + [page]) == Concat(pages) + page.chunk
  {
    assert (pages + [page])[..|pages|] == pages;
    forall i | 0 < i < |pages + [page]|
      ensures LinkedAt(pages + [page], reply, i)
    {
      if i < |pages| { assert LinkedAt(pages, reply, i); }
    }
  }

  /** What a client has got: the chunks of the pages, one after the other. */
  lemma {:induction false} ConcatInTurn(x: seq<Response>, y: seq<Response>, page: Response)
    ensures Concat(x + y) == Concat(x) + Concat(y)
    ensures Concat([]) == [] && Concat([page]) == if page.Page? then page.chunk else []
  {
    assert [page][..0] == [];
    if y == [] {
      assert x + y == x;
    } else {
      assert (x + y)[..|x + y| - 1] == x + y[..|y| - 1];
      ConcatInTurn(x, y[..|y| - 1], page);
    }
  }

  /** A client that follows `next` tokens from the start of an unchanged list gets the whole list
      exactly once and in order, in finitely many pages, and each `prev` token leads one page back. */
  method FollowNext(reply: string -> Response, ghost sc: Scheme, ghost list: seq<Room>, limit: int)
    returns (pages: seq<Response>)
    requires Serves(reply, sc, list, limit)
    ensures pages != [] && Linked(pages, reply)
    ensures pages[0] == reply("") && pages[|pages| - 1].nextBatch == ""
    ensures Concat(pages) == list
  {
    var page := reply("");
    pages := [page];
    ghost var o := 0;
    assert ServesAt(reply, sc, list, limit, o);
    while page.nextBatch != ""
      invariant o <= |list| && page == reply(sc.token(o)) && IsPageAt(sc, page, list, o, limit)
      invariant pages != [] && pages[0] == reply("") && pages[|pages| - 1] == page
      invariant Linked(pages, reply)
      invariant Concat(pages) == list[..Min(o + limit, |list|)]
      decreases |list| - o
    {
      NextPage(reply, sc, list, limit, o);
      var page' := reply(page.nextBatch);
      LinkOneMore(pages, page', reply);
      pages, page, o := pages + [page'], page', o + limit;
      assert ServesAt(reply, sc, list, limit, o);
    }
    LastPage(reply, sc, list, limit, o);
  }

  /** The same client and the search: over an unchanged cache it sees every matching room exactly
      once, and every room ID at most once if the cache has no duplicates. */
  method FollowSearch(cache: seq<Room>, limit: int, term: string, lower: Lower) returns (pages: seq<Response>)
    requires |cache| <= INT64_MAX - 0x8000 && 0 <= limit <= 0x7fff
    ensures pages != [] && pages[0] == PageFor(cache, Request("", limit, term), lower)
    ensures Linked(pages, since => PageFor(cache, Request(since, limit, term), lower))
    ensures pages[|pages| - 1].nextBatch == ""
    ensures Concat(pages) == Filtered(cache, term, lower)
    ensures DistinctRooms(cache) ==> DistinctRooms(Concat(pages))
  {
    var list := FilterRooms(cache, term, lower);
    var size := if limit == 0 then 50 else limit;
    TokensRoundTrip();
    DirectoryServes(TOKENS, list, |cache|, size);
    pages := FollowNext(Replies(TOKENS, list, |cache|, size), TOKENS, list, size);
    if DistinctRooms(cache) { FilteredKeepsUnique(cache, term, lower); }
    SameReplies(pages, Replies(TOKENS, list, |cache|, size),
                since => PageFor(cache, Request(since, limit, term), lower));
  }

  lemma SameReplies(pages: seq<Response>, f: string -> Response, g: string -> Response)
    requires Linked(pages, f) && forall since :: f(since) == g(since)
    ensures Linked(pages, g)
  {
    forall i | 0 < i < |pages|
      ensures LinkedAt(pages, g, i)
    {
      assert LinkedAt(pages, f, i);
    }
  }
}
