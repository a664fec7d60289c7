/**
 * The text a restored session's first prompt starts with: as many of the
 * session's last events as fit, in order, and a marker when some do not.
 */
module Replay {
  import opened Prelude
  import opened Order
  import opened SessionStore

  const PREFIX: string :=
    "Previous session history is replayed below as JSON-RPC envelopes. " +
    "Use it as context before responding to the latest user prompt.\n"
  const MARKER: string := "\n[history truncated]"

  /** Lines, each with its line end. */
  function Block(lines: seq<string>): string {
    if lines == [] then "" else Block(DropLast(lines)) + Last(lines) + "\n"
  }

  /** The first `k` lines can be told within `maxChars`. */
  predicate Fits(lines: seq<string>, k: nat, maxChars: nat)
    requires k <= |lines|
  {
    |PREFIX| + |Block(lines[..k])| <= maxChars
  }

  /** `k` lines are kept: they fit (or there are none), and no longer prefix fits. */
  ghost predicate LongestFit(lines: seq<string>, k: nat, maxChars: nat) {
    && k <= |lines|
    && (k == 0 || Fits(lines, k, maxChars))
    && forall j :: k < j <= |lines| ==> !Fits(lines, j, maxChars)
  }

  lemma {:induction false} BlockGrows(lines: seq<string>, i: nat, j: nat)
    requires i <= j <= |lines|
    ensures |Block(lines[..i])| <= |Block(lines[..j])|
  {
    if i < j {
      assert DropLast(lines[..j]) == lines[..j - 1];
      BlockGrows(lines, i, j - 1);
    }
  }

  /** There is only one longest fit, so the replay text is determined by the events and the budget. */
  lemma LongestFitIsUnique(lines: seq<string>, k: nat, j: nat, maxChars: nat)
    requires LongestFit(lines, k, maxChars) && LongestFit(lines, j, maxChars)
    ensures k == j
  {
  }

  /** The lines are the events' JSON renderings; `kept` is how many of them the text holds. */
  method BuildReplayText(lines: seq<string>, maxChars: nat) returns (text: Option<string>, ghost kept: nat)
    ensures text.None? <==> lines == []
    ensures LongestFit(lines, kept, maxChars)
    ensures text.Some? ==> text.value == PREFIX + Block(lines[..kept]) + (if kept < |lines| then MARKER else "")
    ensures text.Some? ==> |text.value| <= Max(maxChars, |PREFIX|) + 20
  {
    kept := 0;
    if |lines| == 0 {
      return None, 0;
    }
    var t := PREFIX;
    assert |MARKER| == 20;
    for i := 0 to |lines|
      invariant kept == i
      invariant t == PREFIX + Block(lines[..i])
      invariant i == 0 || Fits(lines, i, maxChars)
    {
      var line := lines[i];
      assert DropLast(lines[..i + 1]) == lines[..i];
      if |t| + |line| + 1 > maxChars {
        forall j | i < j <= |lines| ensures !Fits(lines, j, maxChars) {
          BlockGrows(lines, i + 1, j);
        }
        t := t + MARKER;
        return Some(t), kept;
      }
      t := t + line + "\n";
      kept := i + 1;
    }
    text := Some(t);
  }

  function RenderAll(events: seq<Event>, render: Event -> string): seq<string> {
    if events == [] then [] else RenderAll(DropLast(events), render) + [render(Last(events))]
  }

  /** The first `k` events told: each one's rendering and a line end, in order. */
  function Told(events: seq<Event>, k: nat, render: Event -> string): string
    requires k <= |events|
  {
    if k == 0 then "" else Told(events, k - 1, render) + render(events[k - 1]) + "\n"
  }

  /** Line `i` renders event `i`, so telling the events is printing the lines. */
  lemma {:induction false} LinesFollowTheEvents(events: seq<Event>, render: Event -> string)
    ensures |RenderAll(events, render)| == |events|
    ensures forall i :: 0 <= i < |events| ==> RenderAll(events, render)[i] == render(events[i])
  {
    if events != [] {
      LinesFollowTheEvents(DropLast(events), render);
    }
  }

  lemma {:induction false} ToldIsBlock(events: seq<Event>, k: nat, render: Event -> string)
    requires k <= |events| == |RenderAll(events, render)|
    ensures Told(events, k, render) == Block(RenderAll(events, render)[..k])
  {
    if k > 0 {
      LinesFollowTheEvents(events, render);
      ToldIsBlock(events, k - 1, render);
      assert DropLast(RenderAll(events, render)[..k]) == RenderAll(events, render)[..k - 1];
    }
  }

  /** `k` events can be told within the budget, or there are none; and one more cannot. */
  ghost predicate MostThatFit(events: seq<Event>, k: nat, maxChars: nat, render: Event -> string) {
    && k <= |events|
    && (k == 0 || |PREFIX| + |Told(events, k, render)| <= maxChars)
    && (k < |events| ==> |PREFIX| + |Told(events, k + 1, render)| > maxChars)
  }

  /**
   * What a restore prepares: the last `maxEvents` events of the session, told
   * one after the other as far as the character budget goes, and the marker if
   * and only if it does not go to the end.
   */
  method PrepareReplay(store: InMemorySessionPersistDriver, sessionId: int, maxEvents: nat, maxChars: nat,
      render: Event -> string)
    returns (text: Option<string>)
    requires store.Valid() && maxEvents >= 1
    ensures var events := LastN(Sort(store.EventsOf(sessionId), EventKey), maxEvents);
      && (text.None? <==> store.EventsOf(sessionId) == [])
      && (text.Some? ==> exists kept: nat :: (MostThatFit(events, kept, maxChars, render)
            && text.value == PREFIX + Told(events, kept, render) + (if kept < |events| then MARKER else "")))
      && (text.Some? ==> |text.value| <= Max(maxChars, |PREFIX|) + 20)
  {
    var events := CollectReplayEvents(store, sessionId, maxEvents);
    SortSorts(store.EventsOf(sessionId), EventKey);
    LinesFollowTheEvents(events, render);
    ghost var kept;
    text, kept := BuildReplayText(RenderAll(events, render), maxChars);
    ToldIsBlock(events, kept, render);
    if kept < |events| {
      ToldIsBlock(events, kept + 1, render);
      assert !Fits(RenderAll(events, render), kept + 1, maxChars);
    }
    assert MostThatFit(events, kept, maxChars, render);
  }
}
