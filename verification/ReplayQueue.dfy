/**
 * The texts that wait for a restored session's next prompt: each restore
 * queues one, or none, and the next prompt of the session takes it along.
 */
module ReplayQueue {
  import opened Prelude

  /** A replay text as the connection queues it: an empty one counts as none. */
  function QueuedText(text: Option<string>): Option<string> {
    if text == Some("") then None else text
  }

  /** A content block of a prompt; only its text matters here. */
  datatype Block = Block(text: string)

  /**
   * What happens to one session's queue: a restore queues a text (or none), a
   * prompt goes out, another method goes out.
   */
  datatype Op = Queue(text: Option<string>) | Prompt(blocks: Option<seq<Block>>) | OtherMethod

  /** The queue entry after a list of operations. */
  function Queued(ops: seq<Op>): Option<string> {
    if ops == [] then None
    else
      match Last(ops)
      case Queue(text) => QueuedText(text)
      case Prompt(_) => None
      case OtherMethod => Queued(DropLast(ops))
  }

  /** The blocks a prompt goes out with, given the queue entry it finds. */
  function SentBlocks(queued: Option<string>, blocks: Option<seq<Block>>): Option<seq<Block>> {
    if queued.None? || queued == Some("") then blocks
    else Some([Block(queued.value)] + (if blocks.Some? then blocks.value else []))
  }

  /** The restore whose text the prompt at `p` carries: the latest one, if no prompt came between. */
  ghost predicate Feeds(ops: seq<Op>, q: nat, p: nat) {
    && q < p < |ops| && ops[p].Prompt?
    && ops[q].Queue? && ops[q].text.Some? && ops[q].text.value != ""
    && forall i :: q < i < p ==> ops[i].OtherMethod?
  }

  lemma {:induction false} QueuedComesFrom(ops: seq<Op>, p: nat)
    requires p < |ops| && ops[p].Prompt?
    ensures Queued(ops[..p]).Some? ==> exists q: nat :: Feeds(ops, q, p) && ops[q].text == Queued(ops[..p])
    ensures forall q: nat :: Feeds(ops, q, p) ==> ops[q].text == Queued(ops[..p])
  {
    QueuedAt(ops[..p]);
    if Queued(ops[..p]).Some? {
      var q: nat :| LatestQueue(ops[..p], q) && ops[..p][q].text == Queued(ops[..p]) && Queued(ops[..p]) != Some("");
      assert Feeds(ops, q, p);
    }
    forall q: nat | Feeds(ops, q, p) ensures ops[q].text == Queued(ops[..p]) {
      assert LatestQueue(ops[..p], q);
    }
  }

  ghost predicate LatestQueue(ops: seq<Op>, q: nat) {
    q < |ops| && ops[q].Queue? && forall i :: q < i < |ops| ==> ops[i].OtherMethod?
  }

  lemma {:induction false} QueuedAt(ops: seq<Op>)
    ensures forall q: nat :: LatestQueue(ops, q) ==> Queued(ops) == QueuedText(ops[q].text)
    ensures Queued(ops).Some? ==>
        exists q: nat :: LatestQueue(ops, q) && ops[q].text == Queued(ops) && Queued(ops) != Some("")
  {
    if ops != [] {
      var before := DropLast(ops);
      QueuedAt(before);
      if Last(ops).OtherMethod? {
        forall q: nat | LatestQueue(ops, q) ensures LatestQueue(before, q) {
        }
        if Queued(ops).Some? {
          var q: nat :| LatestQueue(before, q) && before[q].text == Queued(before) && Queued(before) != Some("");
          assert LatestQueue(ops, q);
        }
      } else {
        forall q: nat | LatestQueue(ops, q) ensures q == |ops| - 1 {
        }
        if Last(ops).Queue? {
          assert LatestQueue(ops, |ops| - 1);
        }
      }
    }
  }

  /**
   * A replay text is put in front of a prompt exactly when the latest restore
   * queued it and no prompt has gone out since; the user's blocks follow in
   * their order; and no restore feeds two prompts.
   */
  lemma ReplayGoesToOnePrompt(ops: seq<Op>, p: nat)
    requires p < |ops| && ops[p].Prompt?
    ensures var sent := SentBlocks(Queued(ops[..p]), ops[p].blocks);
      var user := if ops[p].blocks.Some? then ops[p].blocks.value else [];
      && (forall q: nat :: Feeds(ops, q, p) ==> sent == Some([Block(ops[q].text.value)] + user))
      && ((forall q: nat :: !Feeds(ops, q, p)) ==> sent == ops[p].blocks)
    ensures forall q: nat, other: nat :: Feeds(ops, q, p) && Feeds(ops, q, other) ==> other == p
  {
    QueuedComesFrom(ops, p);
    forall q: nat, other: nat | Feeds(ops, q, p) && Feeds(ops, q, other) ensures other == p {
    }
  }

  lemma QueuedSnoc(ops: seq<Op>, op: Op)
    ensures Queued(ops + [op]) == match op
      case Queue(text) => QueuedText(text)
      case Prompt(_) => None
      case OtherMethod => Queued(ops)
  {
    assert DropLast(ops + [op]) == ops;
  }

  /** The connection's replay table. */
  class ReplayTable {
    var pendingReplayByLocalSessionId: map<string, string>
    ghost var history: map<string, seq<Op>>

    ghost function HistoryOf(id: string): seq<Op>
      reads this
    {
      if id in history then history[id] else []
    }

    ghost predicate Valid()
      reads this
    {
      forall id :: Lookup(pendingReplayByLocalSessionId, id) == Queued(HistoryOf(id))
    }

    constructor ()
      ensures Valid() && history == map[]
    {
      pendingReplayByLocalSessionId, history := map[], map[];
    }

    method QueueReplay(id: string, replayText: Option<string>)
      requires Valid()
      modifies this
      ensures Valid() && history == old(history)[id := old(HistoryOf(id)) + [Queue(replayText)]]
    {
      QueuedSnoc(HistoryOf(id), Queue(replayText));
      history := history[id := HistoryOf(id) + [Queue(replayText)]];
      if replayText.None? || replayText.value == "" {
        pendingReplayByLocalSessionId := pendingReplayByLocalSessionId - {id};
      } else {
        pendingReplayByLocalSessionId := pendingReplayByLocalSessionId[id := replayText.value];
      }
      forall other ensures Lookup(pendingReplayByLocalSessionId, other) == Queued(HistoryOf(other)) {
        assert old(Lookup(pendingReplayByLocalSessionId, other) == Queued(HistoryOf(other)));
      }
    }

    /** The prompt branch of sendSessionMethod: take the queued text, if any, and put it first. */
    method SendPrompt(id: string, blocks: Option<seq<Block>>) returns (sent: Option<seq<Block>>)
      requires Valid()
      modifies this
      ensures Valid() && history == old(history)[id := old(HistoryOf(id)) + [Prompt(blocks)]]
      ensures sent == SentBlocks(Queued(old(HistoryOf(id))), blocks)
    {
      QueuedAt(HistoryOf(id));
      assert Lookup(pendingReplayByLocalSessionId, id) == Queued(HistoryOf(id));
      sent := blocks;
      if id in pendingReplayByLocalSessionId {
        var replayText := pendingReplayByLocalSessionId[id];
        if replayText != "" {
          pendingReplayByLocalSessionId := pendingReplayByLocalSessionId - {id};
          sent := Some([Block(replayText)] + (if blocks.Some? then blocks.value else []));
        }
      }
      QueuedSnoc(HistoryOf(id), Prompt(blocks));
      history := history[id := HistoryOf(id) + [Prompt(blocks)]];
      forall other ensures Lookup(pendingReplayByLocalSessionId, other) == Queued(HistoryOf(other)) {
        assert old(Lookup(pendingReplayByLocalSessionId, other) == Queued(HistoryOf(other)));
      }
    }
  }
}
