/** The transport object itself: its fields, updated in place, one method per stretch of code between awaits. */
module TransportClass {
  import opened Prelude
  import opened DuplicateWindow
  import opened Transport

  class StreamableHttpAcpTransport {
    const bootstrapQuery: bool
    var closed: bool
    var closingPromise: bool
    var postedOnce: bool
    var readableController: bool
    var sseLoop: Option<nat>
    var lastEventId: Option<string>
    const filter: ResponseFilter

    /** The stream behind the controller, and the continuations that are suspended. */
    var readable: Readable
    var deleting: bool
    var loops: map<nat, Phase>
    var started: nat
    var posts: nat
    ghost var trace: History

    ghost predicate Valid()
      reads this, filter
    {
      filter.Valid()
    }

    ghost function View(): State
      reads this, filter
    {
      State(bootstrapQuery, closed, closingPromise, deleting, postedOnce, readableController, readable, loops, sseLoop,
            started, lastEventId, filter.accepted, posts, trace)
    }

    constructor (bootstrap: bool)
      ensures Valid() && fresh(filter) && View() == Init(bootstrap)
    {
      bootstrapQuery := bootstrap;
      closed, closingPromise, postedOnce, readableController := false, false, false, true;
      sseLoop, lastEventId := None, None;
      readable, deleting, loops, started, posts, trace := Open, false, map[], 0, 0, Start;
      filter := new ResponseFilter();
    }

    ghost method Observe(o: Observation)
      modifies this`trace
      ensures trace == Then(old(trace), o)
    {
      trace := Then(trace, o);
    }

    method SettleReadable(errored: bool)
      requires Valid()
      modifies this`readable, this`trace
      ensures Valid() && View() == Settle(old(View()), errored)
    {
      if readableController && readable.Open? {
        readable := if errored then Errored else Closed;
        Observe(Settled(errored));
      }
    }

    method FailReadable()
      requires Valid()
      modifies this
      ensures Valid() && View() == Transport.FailReadable(old(View()))
    {
      if closed {
        return;
      }
      closed := true;
      Observe(Shut);
      SettleReadable(true);
      readableController := false;
    }

    method PushInbound(a: Arrival) returns (threw: bool)
      requires Valid()
      modifies this, filter
      ensures Valid() && (View(), threw) == Transport.PushInbound(old(View()), a)
    {
      if closed {
        return false;
      }
      Observe(Arrived(a.m));
      var deliver := filter.Accept(a.m);
      if !deliver {
        return false;
      }
      if a.observerThrows {
        Observe(Swallowed(a.m));
        return true;
      }
      if readableController {
        if a.enqueueFails || readable != Open {
          Observe(Swallowed(a.m));
          FailReadable();
        } else {
          Observe(Delivered(a.m));
        }
      }
      return false;
    }

    /** The events of one read, handed on until one of them throws. */
    method ProcessItems(items: seq<Item>) returns (threw: bool)
      requires Valid()
      modifies this, filter
      ensures Valid() && (View(), threw) == Transport.ProcessItems(old(View()), items)
    {
      threw := false;
      var i := 0;
      while i < |items|
        invariant 0 <= i <= |items| && Valid() && !threw
        invariant Transport.ProcessItems(old(View()), items) == Transport.ProcessItems(View(), items[i..])
      {
        var item := items[i];
        assert items[i..][0] == item && items[i..][1..] == items[i + 1..];
        ghost var before := View();
        if item.id.Some? {
          lastEventId := item.id;
          Observe(SawId(item.id.value));
        }
        match item.body {
          case NoBody =>
          case Malformed => threw := true;
          case Parsed(arrival) => threw := PushInbound(arrival);
        }
        assert (View(), threw) == ProcessItem(before, item);
        if threw {
          return;
        }
        i := i + 1;
      }
    }

    /** The head of the stream loop. */
    method LoopTop(k: nat)
      requires Valid()
      modifies this
      ensures Valid() && View() == Transport.LoopTop(old(View()), k)
    {
      if closed {
        loops := loops[k := Ended];
        return;
      }
      loops := loops[k := Fetching];
      Observe(Got(lastEventId));
    }

    method EnsureSseLoop()
      requires Valid()
      modifies this
      ensures Valid() && View() == Transport.EnsureSseLoop(old(View()))
    {
      if sseLoop.Some? || closed || !postedOnce {
        return;
      }
      var k := started;
      sseLoop, started := Some(k), started + 1;
      LoopTop(k);
    }

    method WriteMessage(observerThrows: bool)
      requires Valid()
      modifies this
      ensures Valid() && View() == Step(old(View()), Write(observerThrows))
    {
      if closed || observerThrows {
        return;
      }
      Observe(Accepted);
      var withBootstrap := !postedOnce && bootstrapQuery;
      postedOnce := true;
      assert View() == Emit(old(View()), Accepted).(postedOnce := true);
      EnsureSseLoop();
      posts := posts + 1;
      Observe(Posted(withBootstrap));
    }

    method Close()
      requires Valid()
      modifies this
      ensures Valid() && View() == Step(old(View()), Action.Close)
    {
      if closingPromise {
        return;
      }
      closingPromise := true;
      CloseImpl();
    }

    method CloseImpl()
      requires Valid()
      modifies this
      ensures Valid() && View() == Transport.CloseImpl(old(View()))
    {
      if closed {
        return;
      }
      closed := true;
      Observe(Shut);
      if !postedOnce {
        SettleReadable(false);
        readableController := false;
        return;
      }
      deleting := true;
      Observe(Deleted);
    }

    /** The DELETE of a close has been answered, refused or has timed out. */
    method DeleteSettled()
      requires Valid()
      modifies this
      ensures Valid() && View() == Step(old(View()), DeleteDone)
    {
      if deleting {
        SettleReadable(false);
        readableController := false;
        deleting := false;
      }
    }

    method CancelReadable()
      requires Valid()
      modifies this
      ensures Valid() && View() == Step(old(View()), Cancel)
    {
      if readable == Open {
        readable := Cancelled;
        assert View() == old(View()).(readable := Cancelled);
        Close();
      }
    }

    method PostSettled(outcome: PostOutcome)
      requires Valid()
      modifies this, filter
      ensures Valid() && View() == Step(old(View()), PostDone(outcome))
    {
      if posts == 0 {
        return;
      }
      posts := posts - 1;
      match outcome {
        case PostFailed => FailReadable();
        case PostEmpty =>
        case PostReply(arrival) =>
          var threw := PushInbound(arrival);
          if threw {
            FailReadable();
          }
      }
    }

    method ReadSettled(k: nat, items: seq<Item>)
      requires Valid()
      modifies this, filter
      ensures Valid() && View() == Step(old(View()), ReadDone(k, items))
    {
      if k in loops && loops[k] == Reading {
        var threw := ProcessItems(items);
        if threw || closed {
          loops := loops[k := Ended];
        }
      }
    }

    /** The remaining resumptions of a stream loop. */
    method ResumeLoop(a: Action)
      requires Valid()
      requires a.GetDone? || a.ReadEnd? || a.ReadFailed? || a.DelayDone? || a.LoopFinally?
      modifies this
      ensures Valid() && View() == Step(old(View()), a)
    {
      if a.k !in loops {
        return;
      }
      match (a, loops[a.k]) {
        case (GetDone(k, ok), Fetching) => loops := loops[k := if !ok || closed then Ended else Reading];
        case (ReadEnd(k), Reading) => loops := loops[k := if closed then Ended else Delaying];
        case (ReadFailed(k), Reading) => loops := loops[k := Ended];
        case (DelayDone(k), Delaying) => LoopTop(k);
        case (LoopFinally(k), Ended) => loops, sseLoop := loops - {k}, None;
        case _ =>
      }
    }
  }
}
