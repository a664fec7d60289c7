/**
 * The in-memory session store: capped retention of sessions, trimming of
 * event lists, and cursor paging, with the two client loops that page through
 * a session's events.
 */
module SessionStore {
  import opened Prelude
  import opened Text
  import opened Order

  const DEFAULT_LIST_LIMIT: nat := 100
  const EVENT_INDEX_SCAN_EVENTS_LIMIT: nat := 500

  /** Ids are represented by their position in collation order. */
  datatype Session = Session(id: int, createdAt: int, body: string)

  datatype Event = Event(id: int, eventIndex: int, body: string)

  function SessionKey(s: Session): Key {
    Key(s.createdAt, s.id)
  }

  function EventKey(e: Event): Key {
    Key(e.eventIndex, e.id)
  }

  /** Created earlier, or at the same moment with an earlier id. */
  predicate Older(a: Session, b: Session) {
    a.createdAt < b.createdAt || (a.createdAt == b.createdAt && a.id < b.id)
  }

  predicate OldestFirst(sessions: seq<Session>) {
    forall i, j :: 0 <= i < j < |sessions| ==> !Older(sessions[j], sessions[i])
  }

  /** In the order of the event indexes, and of the ids where indexes are equal. */
  predicate InIndexOrder(events: seq<Event>) {
    forall i, j :: 0 <= i < j < |events| ==>
      events[i].eventIndex < events[j].eventIndex ||
      (events[i].eventIndex == events[j].eventIndex && events[i].id <= events[j].id)
  }

  /** What sorting by the two keys comes to. */
  lemma KeysOrder(sessions: seq<Session>, events: seq<Event>)
    ensures OldestFirst(Sort(sessions, SessionKey)) && multiset(Sort(sessions, SessionKey)) == multiset(sessions)
    ensures InIndexOrder(Sort(events, EventKey)) && multiset(Sort(events, EventKey)) == multiset(events)
  {
    SortSorts(sessions, SessionKey);
    SortSorts(events, EventKey);
    var sorted := Sort(sessions, SessionKey);
    forall i, j | 0 <= i < j < |sorted| ensures !Older(sorted[j], sorted[i]) {
      assert !Less(SessionKey(sorted[j]), SessionKey(sorted[i]));
    }
    var ordered := Sort(events, EventKey);
    forall i, j | 0 <= i < j < |ordered|
      ensures !Less(Key(ordered[j].eventIndex, ordered[j].id), EventKey(ordered[i]))
    {
      assert !Less(EventKey(ordered[j]), EventKey(ordered[i]));
    }
  }

  // ------------------------------------------------------------------ paging

  /** An optional JavaScript number. */
  datatype Number = Undefined | NotANumber | Infinite | Finite(value: real)

  function NormalizeCap(n: Number, fallback: nat): (cap: nat)
    requires fallback >= 1
    ensures n.Finite? && n.value >= 1.0 ==> cap as real <= n.value < (cap + 1) as real
    ensures !n.Finite? || n.value < 1.0 ==> cap == fallback
    ensures cap >= 1
  {
    if !n.Finite? || n.value < 1.0 then fallback else n.value.Floor
  }

  function Digit(d: nat): char
    requires d < 10
  {
    ('0' as int + d) as char
  }

  predicate IsDigit(c: char) {
    '0' <= c <= '9'
  }

  /** `String(n)`. */
  function Show(n: nat): string {
    if n < 10 then [Digit(n)] else Show(n / 10) + [Digit(n % 10)]
  }

  function DigitPrefix(s: string): string {
    if s == "" || !IsDigit(s[0]) then "" else [s[0]] + DigitPrefix(s[1..])
  }

  function DigitsValue(s: string): nat
    requires forall c :: c in s ==> IsDigit(c)
  {
    if s == "" then 0
    else
      assert IsDigit(Last(s));
      10 * DigitsValue(DropLast(s)) + (Last(s) as int - '0' as int)
  }

  lemma {:induction false} DigitPrefixIsDigits(s: string)
    ensures forall c :: c in DigitPrefix(s) ==> IsDigit(c)
  {
    if s != "" && IsDigit(s[0]) {
      DigitPrefixIsDigits(s[1..]);
    }
  }

  /** `Number.parseInt(s, 10)`: leading white space, a sign, then as many digits as there are; None is NaN. */
  function ParseInt(s: string): Option<int> {
    var t := TrimStart(s);
    var negative := t != "" && t[0] == '-';
    var digits := DigitPrefix(if t != "" && (t[0] == '-' || t[0] == '+') then t[1..] else t);
    DigitPrefixIsDigits(if t != "" && (t[0] == '-' || t[0] == '+') then t[1..] else t);
    if digits == "" then None else Some(if negative then -(DigitsValue(digits) as int) else DigitsValue(digits))
  }

  function ParseCursor(cursor: Option<string>): nat {
    if cursor.None? || cursor.value == "" then 0
    else
      match ParseInt(cursor.value)
      case None => 0
      case Some(n) => if n < 0 then 0 else n
  }

  lemma {:induction false} ShowDigits(n: nat)
    ensures Show(n) != "" && (forall c :: c in Show(n) ==> IsDigit(c)) && DigitsValue(Show(n)) == n
  {
    if n >= 10 {
      ShowDigits(n / 10);
      assert DropLast(Show(n)) == Show(n / 10);
    } else {
      assert DropLast(Show(n)) == "";
    }
  }

  lemma {:induction false} DigitPrefixOfDigits(s: string)
    requires forall c :: c in s ==> IsDigit(c)
    ensures DigitPrefix(s) == s
  {
    if s != "" {
      DigitPrefixOfDigits(s[1..]);
      assert [s[0]] + s[1..] == s;
    }
  }

  /** A printed offset is read back as that offset. */
  lemma CursorRoundTrip(n: nat)
    ensures ParseCursor(Some(Show(n))) == n
  {
    ShowDigits(n);
    DigitPrefixOfDigits(Show(n));
    assert IsDigit(Show(n)[0]);
    assert TrimStart(Show(n)) == Show(n);
  }

  lemma {:induction false} DigitPrefixStops(digits: string, rest: string)
    requires forall c :: c in digits ==> IsDigit(c)
    requires rest == "" || !IsDigit(rest[0])
    ensures DigitPrefix(digits + rest) == digits
  {
    if digits == "" {
      assert digits + rest == rest;
    } else {
      assert (digits + rest)[1..] == digits[1..] + rest;
      DigitPrefixStops(digits[1..], rest);
      assert [digits[0]] + digits[1..] == digits;
    }
  }

  lemma PlainIsRead(n: nat, before: string, after: string)
    requires forall c :: c in before ==> IsSpace(c)
    requires after == "" || !IsDigit(after[0])
    ensures ParseInt(before + (Show(n) + after)) == Some(n)
  {
    ShowDigits(n);
    DigitPrefixStops(Show(n), after);
    assert IsDigit(Show(n)[0]) && (Show(n) + after)[0] == Show(n)[0];
    TrimStartSkips(before, Show(n) + after);
  }

  lemma SignedIsRead(n: nat, before: string, after: string, sign: char)
    requires forall c :: c in before ==> IsSpace(c)
    requires after == "" || !IsDigit(after[0])
    requires sign == '+' || sign == '-'
    ensures ParseInt(before + ([sign] + Show(n) + after)) == Some(if sign == '-' then -(n as int) else n)
  {
    ShowDigits(n);
    DigitPrefixStops(Show(n), after);
    var text := [sign] + Show(n) + after;
    assert text[1..] == Show(n) + after;
    TrimStartSkips(before, text);
  }

  /** White space in front does not matter, and what does not begin like a number is none. */
  lemma OthersAreNoNumbers(before: string, text: string)
    requires forall c :: c in before ==> IsSpace(c)
    requires text == "" || (!IsSpace(text[0]) && !IsDigit(text[0]) && text[0] !in "+-")
    ensures ParseInt(before + text) == None
  {
    TrimStartSkips(before, text);
  }

  /**
   * Any other cursor: white space in front, a plus sign and whatever follows
   * the digits do not matter; a negative number, or no number, means the start.
   */
  lemma CursorsAreReadLeniently(n: nat, before: string, after: string)
    requires forall c :: c in before ==> IsSpace(c)
    requires after == "" || !IsDigit(after[0])
    ensures ParseCursor(None) == 0 && ParseCursor(Some("")) == 0
    ensures ParseCursor(Some(before + (Show(n) + after))) == n
    ensures ParseCursor(Some(before + ("+" + Show(n) + after))) == n
    ensures ParseCursor(Some(before + ("-" + Show(n) + after))) == 0
    ensures after == "" || (!IsSpace(after[0]) && after[0] !in "+-") ==> ParseCursor(Some(before + after)) == 0
  {
    ShowDigits(n);
    PlainIsRead(n, before, after);
    SignedIsRead(n, before, after, '+');
    SignedIsRead(n, before, after, '-');
    if after == "" || (!IsSpace(after[0]) && after[0] !in "+-") {
      OthersAreNoNumbers(before, after);
    }
  }

  datatype Page<T> = Page(items: seq<T>, nextCursor: Option<string>)

  function Paginate<T>(items: seq<T>, cursor: Option<string>, limit: Number): Page<T> {
    var offset := Min(ParseCursor(cursor), |items|);
    var end := Min(offset + NormalizeCap(limit, DEFAULT_LIST_LIMIT), |items|);
    var nextOffset := ParseCursor(cursor) + (end - offset);
    Page(items[offset..end], if nextOffset < |items| then Some(Show(nextOffset)) else None)
  }

  /** A page never holds more than the limit, and it is full when something is left. */
  lemma PageIsFull<T>(items: seq<T>, cursor: Option<string>, limit: Number)
    ensures var page := Paginate(items, cursor, limit);
      && |page.items| <= NormalizeCap(limit, 100)
      && (page.nextCursor.Some? ==> |page.items| == NormalizeCap(limit, 100))
  {
    var offset := Min(ParseCursor(cursor), |items|);
    var end := Min(offset + NormalizeCap(limit, DEFAULT_LIST_LIMIT), |items|);
    assert |items[offset..end]| == end - offset;
  }

  /** A page carries a cursor exactly when something is left, and the cursor moves on by what the page held. */
  lemma PageAdvances<T>(items: seq<T>, cursor: Option<string>, limit: Number)
    ensures var page := Paginate(items, cursor, limit);
      var offset := ParseCursor(cursor);
      && (page.nextCursor.Some? ==> page.items != [] && ParseCursor(page.nextCursor) == offset + |page.items| < |items|)
      && (page.nextCursor.None? ==> offset + |page.items| >= |items|)
      && (offset <= |items| ==> page.items == items[offset..offset + |page.items|])
  {
    var page := Paginate(items, cursor, limit);
    if page.nextCursor.Some? {
      CursorRoundTrip(ParseCursor(cursor) + |page.items|);
    }
  }

  /** Reading on from what has been read so far: a page extends it, and the last page completes it. */
  lemma PageExtends<T>(items: seq<T>, cursor: Option<string>, limit: Number)
    requires ParseCursor(cursor) <= |items|
    ensures var page := Paginate(items, cursor, limit);
      var read := items[..ParseCursor(cursor)] + page.items;
      && (page.nextCursor.None? ==> read == items)
      && (page.nextCursor.Some? ==>
            ParseCursor(cursor) < ParseCursor(page.nextCursor) <= |items| &&
                read == items[..ParseCursor(page.nextCursor)])
  {
    PageAdvances(items, cursor, limit);
  }

  /** All items got by following `nextCursor` from `cursor` on. */
  function Follow<T>(items: seq<T>, cursor: Option<string>, limit: Number): seq<T>
    decreases |items| - ParseCursor(cursor)
  {
    PageAdvances(items, cursor, limit);
    var page := Paginate(items, cursor, limit);
    if page.nextCursor.None? then page.items else page.items + Follow(items, page.nextCursor, limit)
  }

  lemma TwoSlices<T>(items: seq<T>, i: nat, j: nat)
    requires i <= j <= |items|
    ensures items[i..j] + items[j..] == items[i..]
  {
  }

  /** Following cursors to the end yields every item once, in order, whatever the limit. */
  lemma {:induction false} FollowYieldsAll<T>(items: seq<T>, cursor: Option<string>, limit: Number)
    ensures Follow(items, cursor, limit) == items[Min(ParseCursor(cursor), |items|)..]
    decreases |items| - ParseCursor(cursor)
  {
    PageAdvances(items, cursor, limit);
    var page := Paginate(items, cursor, limit);
    var offset := Min(ParseCursor(cursor), |items|);
    if page.nextCursor.Some? {
      FollowYieldsAll(items, page.nextCursor, limit);
      TwoSlices(items, offset, offset + |page.items|);
    }
  }

  /** Paging through a session's events sees each event once, in index order, for every page size. */
  lemma PagedEventsAreComplete(events: seq<Event>, limit: Number)
    ensures var seen := Follow(Sort(events, EventKey), None, limit);
      multiset(seen) == multiset(events) && InIndexOrder(seen)
  {
    KeysOrder([], events);
    FollowYieldsAll(Sort(events, EventKey), None, limit);
    assert Sort(events, EventKey)[0..] == Sort(events, EventKey);
  }

  // ------------------------------------------------------------------- store

  function KeysOf(sessions: map<int, Session>): set<Key> {
    set id | id in sessions :: SessionKey(sessions[id])
  }

  /** Every session id was always written with the same createdAt. */
  ghost predicate OneCreatedAt(written: set<Key>) {
    forall a, b :: a in written && b in written && a.minor == b.minor ==> a == b
  }

  /** What a store holds of everything written to it: the newest sessions, as long as createdAt is never changed. */
  ghost predicate Held(sessions: map<int, Session>, written: set<Key>, maxSessions: nat) {
    && (forall id :: id in sessions ==> sessions[id].id == id)
    && |sessions| <= maxSessions
    && KeysOf(sessions) <= written
    && (OneCreatedAt(written) ==> IsTop(KeysOf(sessions), written, maxSessions))
  }

  /**
   * The records after a write: those of before with the one written, as many
   * as the cap allows, unchanged; what is missing is older than all the rest.
   */
  ghost predicate Updated(before: map<int, Session>, session: Session, kept: map<int, Session>, maxSessions: nat) {
    var all := before[session.id := session];
    && (forall id :: id in kept ==> id in all && kept[id] == all[id])
    && |kept| == Min(maxSessions, |all|)
    && (forall gone, id :: gone in all && gone !in kept && id in kept ==> Older(all[gone], kept[id]))
  }

  /** All that a write promises of the records and of the keys written so far. */
  ghost predicate AfterWrite(
    before: map<int, Session>, session: Session, written: set<Key>, kept: map<int, Session>, maxSessions: nat)
  {
    var k := SessionKey(session);
    && Held(kept, written + {k}, maxSessions)
    && Updated(before, session, kept, maxSessions)
    && (OneCreatedAt(written + {k}) ==> KeysOf(kept) == Retain(KeysOf(before), k, maxSessions))
  }

  lemma LeastGoes(before: map<int, Session>, session: Session, oldest: Session, maxSessions: nat)
    requires forall id :: id in before ==> before[id].id == id
    requires var all := before[session.id := session];
      && oldest.id in all && all[oldest.id] == oldest && IsLeast(SessionKey(oldest), KeysOf(all))
      && |all| == maxSessions + 1
    ensures Updated(before, session, before[session.id := session] - {oldest.id}, maxSessions)
  {
    var all := before[session.id := session];
    RemoveKey(all, oldest);
    forall id | id in all && id != oldest.id ensures Older(oldest, all[id]) {
      assert SessionKey(all[id]) in KeysOf(all);
    }
  }

  class InMemorySessionPersistDriver {
    const maxSessions: nat
    const maxEventsPerSession: nat
    var sessions: map<int, Session>
    var eventsBySession: map<int, seq<Event>>
    /** Keys of all sessions ever written. */
    ghost var written: set<Key>

    ghost predicate Valid()
      reads this
    {
      && maxSessions >= 1 && maxEventsPerSession >= 1
      && Held(sessions, written, maxSessions)
      && sessions.Keys <= eventsBySession.Keys
    }

    constructor (maxSessions: Number, maxEventsPerSession: Number)
      ensures Valid() && sessions == map[] && eventsBySession == map[] && written == {}
      ensures this.maxSessions == NormalizeCap(maxSessions, 1024)
      ensures this.maxEventsPerSession == NormalizeCap(maxEventsPerSession, 500)
    {
      this.maxSessions := NormalizeCap(maxSessions, 1024);
      this.maxEventsPerSession := NormalizeCap(maxEventsPerSession, 500);
      sessions, eventsBySession, written := map[], map[], {};
    }

    function EventsOf(sessionId: int): seq<Event>
      reads this
    {
      if sessionId in eventsBySession then eventsBySession[sessionId] else []
    }

    /** All session records in some order: `[...this.sessions.values()]`. */
    static method ValuesOf(m: map<int, Session>) returns (values: seq<Session>)
      requires forall id :: id in m ==> m[id].id == id
      ensures IsListing(values, m)
    {
      values := [];
      var rest := m.Keys;
      while rest != {}
        invariant rest <= m.Keys
        invariant forall i :: 0 <= i < |values| ==> values[i].id in m.Keys - rest && m[values[i].id] == values[i]
        invariant forall id :: id in m && id !in rest ==> m[id] in values
        invariant |values| + |rest| == |m|
        decreases rest
      {
        var id := Pick(rest);
        rest := rest - {id};
        values := values + [m[id]];
      }
    }

    /** Writes a record and, when there are too many, evicts the oldest ones with their events. */
    method UpdateSession(session: Session)
      requires Valid()
      modifies this
      ensures Valid()
      ensures written == old(written) + {Key(session.createdAt, session.id)}
      ensures Updated(old(sessions), session, sessions, maxSessions)
      ensures OneCreatedAt(written) ==>
                KeysOf(sessions) == Retain(KeysOf(old(sessions)), SessionKey(session), maxSessions)
      ensures eventsBySession ==
          WithList(old(eventsBySession), session.id) - (old(sessions.Keys) + {session.id} - sessions.Keys)
    {
      ghost var before, writtenBefore := sessions, written;
      Put(session);
      EvictOverflow(before, session, writtenBefore);
    }

    /** The end of a write: nothing to do within the cap, otherwise the oldest goes. */
    method EvictOverflow(ghost before: map<int, Session>, session: Session, ghost writtenBefore: set<Key>)
      requires maxSessions >= 1 && Held(before, writtenBefore, maxSessions)
      requires sessions == before[session.id := session] && sessions.Keys <= eventsBySession.Keys
      modifies this`sessions, this`eventsBySession
      ensures sessions.Keys <= eventsBySession.Keys
      ensures AfterWrite(before, session, writtenBefore, sessions, maxSessions)
      ensures eventsBySession == old(eventsBySession) - (before.Keys + {session.id} - sessions.Keys)
    {
      WriteGrowsByOne(before, session, writtenBefore, maxSessions);
      if |sessions| <= maxSessions {
        WriteWithinCap(before, session, writtenBefore, maxSessions);
        assert eventsBySession - {} == eventsBySession;
      } else {
        ghost var oldest := RemoveOldest();
        OldestGoes(before, session, writtenBefore, maxSessions, oldest);
      }
    }

    /** The part of a write before the cap is looked at: the record is set and gets an event list. */
    method Put(session: Session)
      modifies this
      ensures sessions == old(sessions)[session.id := session]
      ensures eventsBySession == WithList(old(eventsBySession), session.id)
      ensures written == old(written) + {SessionKey(session)}
    {
      sessions := sessions[session.id := session];
      if session.id !in eventsBySession {
        eventsBySession := eventsBySession[session.id := []];
      }
      written := written + {SessionKey(session)};
    }

    /** The eviction at the end of a write: sort by age and delete the overflow from both maps. */
    method RemoveOldest() returns (ghost oldest: Session)
      requires maxSessions >= 1 && |sessions| == maxSessions + 1
      requires forall id :: id in sessions ==> sessions[id].id == id
      modifies this`sessions, this`eventsBySession
      ensures oldest.id in old(sessions) && old(sessions)[oldest.id] == oldest
      ensures IsLeast(SessionKey(oldest), KeysOf(old(sessions)))
      ensures sessions == old(sessions) - {oldest.id}
      ensures eventsBySession == old(eventsBySession) - {oldest.id}
    {
      var overflow := |sessions| - maxSessions;
      var values := ValuesOf(sessions);
      FirstIsLeast(values, sessions);
      var removable := Sort(values, SessionKey)[..overflow];
      oldest := removable[0];
      for i := 0 to |removable|
        invariant sessions == if i == 0 then old(sessions) else old(sessions) - {oldest.id}
        invariant eventsBySession == if i == 0 then old(eventsBySession) else old(eventsBySession) - {oldest.id}
      {
        sessions := sessions - {removable[i].id};
        eventsBySession := eventsBySession - {removable[i].id};
      }
    }

    /** Appends an event and trims the list from the front; the session need not exist. */
    method InsertEvent(sessionId: int, event: Event)
      requires Valid()
      modifies this`eventsBySession
      ensures Valid()
      ensures eventsBySession ==
          old(eventsBySession)[sessionId := LastN(old(EventsOf(sessionId)) + [event], maxEventsPerSession)]
    {
      var events := if sessionId in eventsBySession then eventsBySession[sessionId] else [];
      events := events + [event];
      if |events| > maxEventsPerSession {
        events := events[|events| - maxEventsPerSession..];
      }
      eventsBySession := eventsBySession[sessionId := events];
    }

    method ListEvents(sessionId: int, cursor: Option<string>, limit: Number) returns (page: Page<Event>)
      requires Valid()
      ensures page == Paginate(Sort(EventsOf(sessionId), EventKey), cursor, limit)
      ensures InIndexOrder(page.items)
    {
      KeysOrder([], EventsOf(sessionId));
      var events := if sessionId in eventsBySession then eventsBySession[sessionId] else [];
      page := Paginate(Sort(events, EventKey), cursor, limit);
    }

    method ListSessions(cursor: Option<string>, limit: Number) returns (page: Page<Session>)
      requires Valid()
      ensures exists sorted ::
                && IsListing(sorted, sessions) && OldestFirst(sorted)
                && page == Paginate(sorted, cursor, limit)
    {
      var values := ValuesOf(sessions);
      var sorted := Sort(values, SessionKey);
      SortedListing(values, sessions);
      page := Paginate(sorted, cursor, limit);
    }
  }

  function WithList(lists: map<int, seq<Event>>, id: int): map<int, seq<Event>> {
    if id in lists then lists else lists[id := []]
  }

  /** `values` holds every record of the map once. */
  ghost predicate IsListing(values: seq<Session>, sessions: map<int, Session>) {
    && (forall i :: 0 <= i < |values| ==> values[i].id in sessions && sessions[values[i].id] == values[i])
    && (forall id :: id in sessions ==> sessions[id] in values)
    && |values| == |sessions|
  }

  lemma SameElements<T>(a: seq<T>, b: seq<T>)
    requires multiset(a) == multiset(b)
    ensures forall x :: x in a <==> x in b
    ensures |a| == |b|
  {
    assert forall x :: x in a <==> x in multiset(a);
    assert forall x :: x in b <==> x in multiset(b);
    assert |a| == |multiset(a)| && |b| == |multiset(b)|;
  }

  /** Different sessions have different keys. */
  lemma {:induction false} KeysCardinality(m: map<int, Session>)
    requires forall id :: id in m ==> m[id].id == id
    ensures |KeysOf(m)| == |m|
  {
    if m != map[] {
      var id := Member(m.Keys);
      RemoveKey(m, m[id]);
      KeysCardinality(m - {id});
      assert SessionKey(m[id]) in KeysOf(m);
      assert m == (m - {id})[id := m[id]];
    }
  }

  lemma RemoveKey(m: map<int, Session>, s: Session)
    requires forall id :: id in m ==> m[id].id == id
    requires s.id in m && m[s.id] == s
    ensures KeysOf(m - {s.id}) == KeysOf(m) - {SessionKey(s)}
    ensures |m - {s.id}| == |m| - 1
  {
    var r := m - {s.id};
    forall k ensures k in KeysOf(r) <==> k in KeysOf(m) - {SessionKey(s)} {
      if k in KeysOf(m) && k != SessionKey(s) {
        var id :| id in m && k == SessionKey(m[id]);
        assert id in r;
      }
    }
    assert r.Keys == m.Keys - {s.id};
    assert |r| == |r.Keys| && |m| == |m.Keys|;
  }

  lemma UpdateKeys(before: map<int, Session>, session: Session, written: set<Key>)
    requires forall id :: id in before ==> before[id].id == id
    requires KeysOf(before) + {SessionKey(session)} <= written && OneCreatedAt(written)
    ensures KeysOf(before[session.id := session]) == KeysOf(before) + {SessionKey(session)}
  {
    var after := before[session.id := session];
    forall k | k in KeysOf(before) ensures k in KeysOf(after) {
      var id :| id in before && k == SessionKey(before[id]);
      if id == session.id {
        assert k.minor == SessionKey(session).minor;
      }
      assert id in after && SessionKey(after[id]) == k;
    }
    assert session.id in after && SessionKey(after[session.id]) in KeysOf(after);
  }

  lemma WriteGrowsByOne(before: map<int, Session>, session: Session, written: set<Key>, maxSessions: nat)
    requires Held(before, written, maxSessions)
    ensures var all := before[session.id := session];
      && all.Keys == before.Keys + {session.id}
      && (forall id :: id in all ==> all[id].id == id)
      && |all| <= maxSessions + 1
  {
    var all := before[session.id := session];
    assert all.Keys == before.Keys + {session.id};
    assert |all| == |all.Keys| && |before| == |before.Keys|;
  }

  /** The keys after a write, before anything is evicted. */
  lemma WriteKeys(before: map<int, Session>, session: Session, written: set<Key>, maxSessions: nat)
    requires Held(before, written, maxSessions)
    ensures var all := before[session.id := session];
      var k := SessionKey(session);
      && KeysOf(all) <= written + {k}
      && |KeysOf(all)| == |all|
      && (OneCreatedAt(written + {k}) ==> KeysOf(all) == KeysOf(before) + {k} && OneCreatedAt(written))
  {
    WriteGrowsByOne(before, session, written, maxSessions);
    KeysCardinality(before[session.id := session]);
    if OneCreatedAt(written + {SessionKey(session)}) {
      UpdateKeys(before, session, written + {SessionKey(session)});
    }
  }

  lemma WriteWithinCap(before: map<int, Session>, session: Session, written: set<Key>, maxSessions: nat)
    requires Held(before, written, maxSessions)
    requires |before[session.id := session]| <= maxSessions
    ensures AfterWrite(before, session, written, before[session.id := session], maxSessions)
    ensures before.Keys + {session.id} - before[session.id := session].Keys == {}
  {
    WriteKeys(before, session, written, maxSessions);
    if OneCreatedAt(written + {SessionKey(session)}) {
      RetainKeepsTop(KeysOf(before), written, SessionKey(session), maxSessions);
    }
  }

  lemma WriteOverCap(before: map<int, Session>, session: Session, written: set<Key>, maxSessions: nat, oldest: Session)
    requires Held(before, written, maxSessions)
    requires var all := before[session.id := session];
      |all| > maxSessions && oldest.id in all && all[oldest.id] == oldest && IsLeast(SessionKey(oldest), KeysOf(all))
    ensures var kept, k := before[session.id := session] - {oldest.id}, SessionKey(session);
      && Held(kept, written + {k}, maxSessions)
      && (OneCreatedAt(written + {k}) ==> KeysOf(kept) == Retain(KeysOf(before), k, maxSessions))
    ensures before.Keys + {session.id} - (before[session.id := session] - {oldest.id}).Keys == {oldest.id}
  {
    var all := before[session.id := session];
    WriteGrowsByOne(before, session, written, maxSessions);
    WriteKeys(before, session, written, maxSessions);
    RemoveKey(all, oldest);
    if OneCreatedAt(written + {SessionKey(session)}) {
      RetainDropsLeast(KeysOf(before), SessionKey(session), maxSessions, SessionKey(oldest));
      RetainKeepsTop(KeysOf(before), written, SessionKey(session), maxSessions);
    }
  }

  lemma OldestGoes(before: map<int, Session>, session: Session, written: set<Key>, maxSessions: nat, oldest: Session)
    requires Held(before, written, maxSessions)
    requires var all := before[session.id := session];
      |all| > maxSessions && oldest.id in all && all[oldest.id] == oldest && IsLeast(SessionKey(oldest), KeysOf(all))
    ensures AfterWrite(before, session, written, before[session.id := session] - {oldest.id}, maxSessions)
    ensures before.Keys + {session.id} - (before[session.id := session] - {oldest.id}).Keys == {oldest.id}
  {
    WriteGrowsByOne(before, session, written, maxSessions);
    WriteOverCap(before, session, written, maxSessions, oldest);
    LeastGoes(before, session, oldest, maxSessions);
  }

  lemma SortedListing(values: seq<Session>, m: map<int, Session>)
    requires IsListing(values, m)
    ensures IsListing(Sort(values, SessionKey), m) && OldestFirst(Sort(values, SessionKey))
  {
    KeysOrder(values, []);
    var sorted := Sort(values, SessionKey);
    SameElements(values, sorted);
    forall i | 0 <= i < |sorted| ensures sorted[i].id in m && m[sorted[i].id] == sorted[i] {
      assert sorted[i] in values;
    }
  }

  lemma FirstIsLeast(values: seq<Session>, m: map<int, Session>)
    requires forall id :: id in m ==> m[id].id == id
    requires IsListing(values, m) && m != map[]
    ensures |Sort(values, SessionKey)| == |values|
    ensures var first := Sort(values, SessionKey)[0];
      first.id in m && m[first.id] == first && IsLeast(SessionKey(first), KeysOf(m)) &&
          Least(KeysOf(m)) == SessionKey(first)
  {
    SortSorts(values, SessionKey);
    var sorted := Sort(values, SessionKey);
    SameElements(values, sorted);
    assert sorted[0] in values;
    forall k | k in KeysOf(m) && k != SessionKey(sorted[0]) ensures Less(SessionKey(sorted[0]), k) {
      var id :| id in m && k == SessionKey(m[id]);
      assert m[id] in sorted;
    }
    assert SessionKey(m[sorted[0].id]) in KeysOf(m);
  }

  // ------------------------------------------------- reading a session's events

  function MaxIndex(events: seq<Event>): int {
    if events == [] then 0 else Max(MaxIndex(DropLast(events)), Last(events).eventIndex)
  }

  lemma {:induction false} MaxIndexBounds(events: seq<Event>)
    ensures MaxIndex(events) >= 0
    ensures forall e :: e in events ==> e.eventIndex <= MaxIndex(events)
    ensures MaxIndex(events) == 0 || exists e :: e in events && e.eventIndex == MaxIndex(events)
  {
    if events != [] {
      MaxIndexBounds(DropLast(events));
      assert Last(events) in events;
      assert forall e :: e in DropLast(events) ==> e in events;
      assert forall e :: e in events ==> e in DropLast(events) || e == Last(events);
    }
  }

  /** The maximum does not depend on the order of the list. */
  lemma MaxIndexOfSame(a: seq<Event>, b: seq<Event>)
    requires multiset(a) == multiset(b)
    ensures MaxIndex(a) == MaxIndex(b)
  {
    SameElements(a, b);
    MaxIndexBounds(a);
    MaxIndexBounds(b);
  }

  lemma {:induction false} MaxIndexConcat(a: seq<Event>, b: seq<Event>)
    ensures MaxIndex(a + b) == Max(MaxIndex(a), MaxIndex(b))
  {
    MaxIndexBounds(a);
    if b == [] {
      assert a + b == a;
    } else {
      MaxIndexConcat(a, DropLast(b));
      assert DropLast(a + b) == a + DropLast(b);
    }
  }

  /** The scan's inner loop over one page. */
  method RaiseTo(items: seq<Event>, start: int) returns (maxIndex: int)
    requires start >= 0
    ensures maxIndex == Max(start, MaxIndex(items))
  {
    maxIndex := start;
    for i := 0 to |items|
      invariant maxIndex == Max(start, MaxIndex(items[..i]))
    {
      assert DropLast(items[..i + 1]) == items[..i];
      if items[i].eventIndex > maxIndex {
        maxIndex := items[i].eventIndex;
      }
    }
    assert items[..|items|] == items;
  }

  /** The client's scan for the highest stored index of a session. */
  method FindMaxPersistedSessionEventIndex(store: InMemorySessionPersistDriver, sessionId: int) returns (maxIndex: int)
    requires store.Valid()
    ensures maxIndex == MaxIndex(store.EventsOf(sessionId))
  {
    maxIndex := 0;
    var eventCursor: Option<string> := None;
    var limit := Finite(EVENT_INDEX_SCAN_EVENTS_LIMIT as real);
    ghost var all := Sort(store.EventsOf(sessionId), EventKey);
    SortSorts(store.EventsOf(sessionId), EventKey);
    MaxIndexOfSame(all, store.EventsOf(sessionId));
    while true
      invariant ParseCursor(eventCursor) <= |all|
      invariant maxIndex == MaxIndex(all[..ParseCursor(eventCursor)])
      decreases |all| - ParseCursor(eventCursor)
    {
      ghost var read := all[..ParseCursor(eventCursor)];
      var eventsPage := store.ListEvents(sessionId, eventCursor, limit);
      MaxIndexBounds(read);
      PageExtends(all, eventCursor, limit);
      MaxIndexConcat(read, eventsPage.items);
      maxIndex := RaiseTo(eventsPage.items, maxIndex);
      if eventsPage.nextCursor.None? {
        break;
      }
      eventCursor := eventsPage.nextCursor;
    }
  }

  /** The events a restored session is told about: the last ones in index order. */
  method CollectReplayEvents(store: InMemorySessionPersistDriver, sessionId: int,
      maxEvents: nat) returns (events: seq<Event>)
    requires store.Valid() && maxEvents >= 1
    ensures events == LastN(Sort(store.EventsOf(sessionId), EventKey), maxEvents)
  {
    var collected: seq<Event> := [];
    var cursor: Option<string> := None;
    var limit := Finite(Max(100, maxEvents) as real);
    ghost var all := Sort(store.EventsOf(sessionId), EventKey);
    while true
      invariant ParseCursor(cursor) <= |all|
      invariant collected == all[..ParseCursor(cursor)]
      decreases |all| - ParseCursor(cursor)
    {
      var page := store.ListEvents(sessionId, cursor, limit);
      PageExtends(all, cursor, limit);
      collected := collected + page.items;
      if page.nextCursor.None? {
        break;
      }
      cursor := page.nextCursor;
    }
    events := if |collected| <= maxEvents then collected else collected[|collected| - maxEvents..];
  }

  ghost predicate IncreasingIndexes(events: seq<Event>) {
    forall i, j :: 0 <= i < j < |events| ==> events[i].eventIndex < events[j].eventIndex
  }

  /**
   * Trimming a list with increasing indexes keeps the highest-index suffix, so
   * the highest index survives and a later scan of the trimmed list continues
   * above everything that was ever stored.
   */
  lemma TrimmingKeepsTheHighest(events: seq<Event>, cap: nat)
    requires cap >= 1 && IncreasingIndexes(events)
    ensures IncreasingIndexes(LastN(events, cap))
    ensures MaxIndex(LastN(events, cap)) == MaxIndex(events)
    ensures forall kept, gone :: kept in LastN(events, cap) && gone in events && gone !in LastN(events, cap)
              ==> gone.eventIndex < kept.eventIndex
  {
    var tail := LastN(events, cap);
    forall kept, gone | kept in tail && gone in events && gone !in tail ensures gone.eventIndex < kept.eventIndex {
      KeptIsHigher(events, cap, kept, gone);
    }
    SuffixIsIncreasing(events, cap);
    if events != [] {
      LastIsMax(events);
      LastIsMax(tail);
    }
  }

  lemma SuffixIsIncreasing(events: seq<Event>, cap: nat)
    requires IncreasingIndexes(events)
    ensures IncreasingIndexes(LastN(events, cap))
    ensures cap >= 1 && events != [] ==> LastN(events, cap) != [] && Last(LastN(events, cap)) == Last(events)
  {
    var tail := LastN(events, cap);
    var cut := |events| - |tail|;
    forall i, j | 0 <= i < j < |tail| ensures tail[i].eventIndex < tail[j].eventIndex {
      assert tail[i] == events[cut + i] && tail[j] == events[cut + j];
    }
  }

  lemma KeptIsHigher(events: seq<Event>, cap: nat, kept: Event, gone: Event)
    requires IncreasingIndexes(events)
    requires kept in LastN(events, cap) && gone in events && gone !in LastN(events, cap)
    ensures gone.eventIndex < kept.eventIndex
  {
    var tail := LastN(events, cap);
    var cut := |events| - |tail|;
    forall i | cut <= i < |events| ensures events[i] in tail {
      assert tail[i - cut] == events[i];
    }
    var k :| 0 <= k < |tail| && tail[k] == kept;
    var g :| 0 <= g < |events| && events[g] == gone;
    assert g < cut && events[cut + k] == kept;
  }

  lemma LastIsMax(events: seq<Event>)
    requires IncreasingIndexes(events) && events != []
    ensures MaxIndex(events) == Max(0, Last(events).eventIndex)
  {
    MaxIndexBounds(events);
    assert Last(events) in events;
    forall e | e in events ensures e.eventIndex <= Last(events).eventIndex {
      var i :| 0 <= i < |events| && events[i] == e;
    }
  }
}
