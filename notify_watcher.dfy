/**
 * The notify-based watcher (src/watcher.rs): `process_events` drains the
 * debounced events waiting on the receiver and maps each to zero, one or two
 * broadcasts; `broadcast_event` turns a broadcast into one call per
 * registered callback, dropping paths that are not valid UTF-8.
 *
 * The notify crate, its debouncing thread and the channel's sending side are
 * not part of this model: the events waiting on the receiver are a field,
 * `Path::to_str` is an uninterpreted function of the path, and calling a
 * callback appends it, with its event, to a log.
 */
module ParcelWatcherModel {
  import opened Wrappers
  import opened Sequences

  /** An operating-system path, as raw bytes. */
  datatype PathBuf = PathBuf(raw: seq<bv8>)

  /** The events of notify's debounced watcher. */
  datatype DebouncedEvent =
    | NoticeWrite(path: PathBuf)
    | NoticeRemove(path: PathBuf)
    | Create(path: PathBuf)
    | Write(path: PathBuf)
    | Chmod(path: PathBuf)
    | Remove(path: PathBuf)
    | Rename(from: PathBuf, to: PathBuf)
    | Rescan
    | Error(message: string, errorPath: Option<PathBuf>)

  /** `ParcelWatcherEvent`: the event type string and the path as UTF-8 text. */
  datatype WatcherEvent = WatcherEvent(eventType: string, path: string)

  /** One call of `broadcast_event`, before the path is converted. */
  datatype Broadcast = Broadcast(eventType: string, path: PathBuf)

  /** A registered callback, identified by the function it points to. */
  type Callback = nat

  /** One call of a callback with an event. */
  datatype Invocation = Invocation(callback: Callback, event: WatcherEvent)

  /**
   * The `match` of `process_events`: a create is broadcast as "create", a
   * remove as "delete", a write and a chmod as "update", a rename as "delete"
   * of the old path followed by "create" of the new one; every other event is
   * dropped.
   */
  function Broadcasts(e: DebouncedEvent): (r: seq<Broadcast>)
    ensures e.Create? ==> r == [Broadcast("create", e.path)]
    ensures e.Remove? ==> r == [Broadcast("delete", e.path)]
    ensures e.Write? || e.Chmod? ==> r == [Broadcast("update", e.path)]
    ensures e.Rename? ==> r == [Broadcast("delete", e.from), Broadcast("create", e.to)]
    ensures e.NoticeWrite? || e.NoticeRemove? || e.Rescan? || e.Error? ==> |r| == 0
  {
    match e
    case Create(p) => [Broadcast("create", p)]
    case Remove(p) => [Broadcast("delete", p)]
    case Write(p) => [Broadcast("update", p)]
    case Chmod(p) => [Broadcast("update", p)]
    case Rename(p1, p2) => [Broadcast("delete", p1), Broadcast("create", p2)]
    case _ => []
  }

  /** The calls of one broadcast to every callback: callback after callback, in vector order. */
  function Fanout(callbacks: seq<Callback>, event: WatcherEvent): seq<Invocation>
    decreases |callbacks|
  {
    if callbacks == [] then []
    else Fanout(callbacks[..|callbacks| - 1], event) + [Invocation(callbacks[|callbacks| - 1], event)]
  }

  /** A broadcast calls every callback exactly once, in vector order, each with the same event. */
  lemma {:induction false} FanoutExact(callbacks: seq<Callback>, event: WatcherEvent)
    ensures |Fanout(callbacks, event)| == |callbacks|
    ensures forall i :: 0 <= i < |callbacks| ==> Fanout(callbacks, event)[i] == Invocation(callbacks[i], event)
    decreases |callbacks|
  {
    if callbacks != [] {
      FanoutExact(callbacks[..|callbacks| - 1], event);
    }
  }

  /** The calls one broadcast makes: none when the path is not UTF-8, else one per callback. */
  function BroadcastInvocations(toStr: PathBuf -> Option<string>, callbacks: seq<Callback>, b: Broadcast): seq<Invocation>
  {
    match toStr(b.path)
    case None => []
    case Some(text) => Fanout(callbacks, WatcherEvent(b.eventType, text))
  }

  function BroadcastStep(toStr: PathBuf -> Option<string>, callbacks: seq<Callback>): Broadcast -> seq<Invocation>
  {
    b => BroadcastInvocations(toStr, callbacks, b)
  }

  /** The calls a sequence of broadcasts makes, broadcast after broadcast. */
  function AllInvocations(toStr: PathBuf -> Option<string>, callbacks: seq<Callback>, bs: seq<Broadcast>): seq<Invocation>
  {
    FlatMap(BroadcastStep(toStr, callbacks), bs)
  }

  function EventStep(toStr: PathBuf -> Option<string>, callbacks: seq<Callback>): DebouncedEvent -> seq<Invocation>
  {
    e => AllInvocations(toStr, callbacks, Broadcasts(e))
  }

  /** The calls `process_events` makes for a sequence of events, in the order the receiver yields them. */
  function Processed(toStr: PathBuf -> Option<string>, callbacks: seq<Callback>, events: seq<DebouncedEvent>): seq<Invocation>
  {
    FlatMap(EventStep(toStr, callbacks), events)
  }

  /** One more event adds the calls of its own broadcasts after those already made. */
  lemma ProcessedSnoc(toStr: PathBuf -> Option<string>, callbacks: seq<Callback>, events: seq<DebouncedEvent>, e: DebouncedEvent)
    ensures Processed(toStr, callbacks, events + [e])
         == Processed(toStr, callbacks, events) + AllInvocations(toStr, callbacks, Broadcasts(e))
  {
    FlatMapSnoc(EventStep(toStr, callbacks), events, e);
  }

  /** Taking the next event of a queue adds the calls of its broadcasts. */
  lemma ProcessedPrefix(toStr: PathBuf -> Option<string>, callbacks: seq<Callback>, queue: seq<DebouncedEvent>, taken: nat)
    requires taken < |queue|
    ensures Processed(toStr, callbacks, queue[..taken + 1])
         == Processed(toStr, callbacks, queue[..taken]) + AllInvocations(toStr, callbacks, Broadcasts(queue[taken]))
  {
    assert queue[..taken + 1] == queue[..taken] + [queue[taken]];
    ProcessedSnoc(toStr, callbacks, queue[..taken], queue[taken]);
  }

  /** The calls of a single broadcast. */
  lemma AllInvocationsOne(toStr: PathBuf -> Option<string>, callbacks: seq<Callback>, b: Broadcast)
    ensures AllInvocations(toStr, callbacks, [b]) == BroadcastInvocations(toStr, callbacks, b)
  {
    FlatMapSnoc(BroadcastStep(toStr, callbacks), [], b);
    assert [] + [b] == [b];
  }

  /** The calls of two broadcasts: those of the first, then those of the second. */
  lemma AllInvocationsTwo(toStr: PathBuf -> Option<string>, callbacks: seq<Callback>, b1: Broadcast, b2: Broadcast)
    ensures AllInvocations(toStr, callbacks, [b1, b2])
         == BroadcastInvocations(toStr, callbacks, b1) + BroadcastInvocations(toStr, callbacks, b2)
  {
    AllInvocationsOne(toStr, callbacks, b1);
    FlatMapSnoc(BroadcastStep(toStr, callbacks), [b1], b2);
    assert [b1] + [b2] == [b1, b2];
  }

  /** Processing two batches one after the other makes the calls of processing them as one. */
  lemma ProcessedAppend(toStr: PathBuf -> Option<string>, callbacks: seq<Callback>,
                        a: seq<DebouncedEvent>, b: seq<DebouncedEvent>)
    ensures Processed(toStr, callbacks, a + b) == Processed(toStr, callbacks, a) + Processed(toStr, callbacks, b)
  {
    FlatMapAppend(EventStep(toStr, callbacks), a, b);
  }

  /**
   * A rename with two UTF-8 paths calls every callback with the delete of the
   * old path, and only then every callback with the create of the new one.
   */
  lemma RenameDeleteBeforeCreate(toStr: PathBuf -> Option<string>, callbacks: seq<Callback>, p1: PathBuf, p2: PathBuf)
    requires toStr(p1).Some? && toStr(p2).Some?
    ensures var r := Processed(toStr, callbacks, [Rename(p1, p2)]);
            && |r| == 2 * |callbacks|
            && (forall i :: 0 <= i < |callbacks| ==> r[i] == Invocation(callbacks[i], WatcherEvent("delete", toStr(p1).value)))
            && (forall i :: 0 <= i < |callbacks| ==> r[|callbacks| + i] == Invocation(callbacks[i], WatcherEvent("create", toStr(p2).value)))
  {
    var b1, b2 := Broadcast("delete", p1), Broadcast("create", p2);
    var del, cre := WatcherEvent("delete", toStr(p1).value), WatcherEvent("create", toStr(p2).value);
    AllInvocationsTwo(toStr, callbacks, b1, b2);
    ProcessedSnoc(toStr, callbacks, [], Rename(p1, p2));
    assert [] + [Rename(p1, p2)] == [Rename(p1, p2)];
    assert Processed(toStr, callbacks, [Rename(p1, p2)]) == Fanout(callbacks, del) + Fanout(callbacks, cre);
    FanoutExact(callbacks, del);
    FanoutExact(callbacks, cre);
  }

  /** A path that is not UTF-8 calls no callback. */
  lemma NonUtf8PathSilent(toStr: PathBuf -> Option<string>, callbacks: seq<Callback>, eventType: string, p: PathBuf)
    requires toStr(p).None?
    ensures BroadcastInvocations(toStr, callbacks, Broadcast(eventType, p)) == []
  {
  }

  /** Events of the kinds the translator does not handle call no callback, however many there are. */
  lemma UnhandledEventsSilent(toStr: PathBuf -> Option<string>, callbacks: seq<Callback>, events: seq<DebouncedEvent>)
    requires forall k :: 0 <= k < |events| ==> !(events[k].Create? || events[k].Remove? || events[k].Write? || events[k].Chmod? || events[k].Rename?)
    ensures Processed(toStr, callbacks, events) == []
  {
    forall k | 0 <= k < |events|
      ensures EventStep(toStr, callbacks)(events[k]) == []
    {
      assert Broadcasts(events[k]) == [];
    }
    FlatMapAllEmpty(EventStep(toStr, callbacks), events);
  }

  /** Every call one broadcast makes is of a registered callback. */
  lemma BroadcastCallsRegistered(toStr: PathBuf -> Option<string>, callbacks: seq<Callback>, b: Broadcast, inv: Invocation)
    requires inv in BroadcastInvocations(toStr, callbacks, b)
    ensures inv.callback in callbacks
  {
    var event := WatcherEvent(b.eventType, toStr(b.path).value);
    FanoutExact(callbacks, event);
    var i :| 0 <= i < |Fanout(callbacks, event)| && Fanout(callbacks, event)[i] == inv;
    assert inv.callback == callbacks[i];
  }

  /** Every call made is of a registered callback. */
  lemma ProcessedCallsRegistered(toStr: PathBuf -> Option<string>, callbacks: seq<Callback>, events: seq<DebouncedEvent>, inv: Invocation)
    requires inv in Processed(toStr, callbacks, events)
    ensures inv.callback in callbacks
  {
    FlatMapMember(EventStep(toStr, callbacks), events, inv);
    var k :| 0 <= k < |events| && inv in EventStep(toStr, callbacks)(events[k]);
    var bs := Broadcasts(events[k]);
    FlatMapMember(BroadcastStep(toStr, callbacks), bs, inv);
    var j :| 0 <= j < |bs| && inv in BroadcastStep(toStr, callbacks)(bs[j]);
    BroadcastCallsRegistered(toStr, callbacks, bs[j], inv);
  }

  /**
   * `ParcelWatcher`: the registered callbacks, the events waiting on the
   * receiver, and the log of callback calls made so far.
   */
  class ParcelWatcher {
    const toStr: PathBuf -> Option<string>
    var callbacks: seq<Callback>
    var pending: seq<DebouncedEvent>
    var invocations: seq<Invocation>

    /** `ParcelWatcher::new`: no callbacks and nothing received yet. */
    constructor (toStr: PathBuf -> Option<string>)
      ensures this.toStr == toStr
      ensures callbacks == [] && pending == [] && invocations == []
    {
      this.toStr := toStr;
      callbacks := [];
      pending := [];
      invocations := [];
    }

    /** `broadcast_event`: convert the path and, when it is UTF-8, call every callback in order with the event. */
    method BroadcastEvent(eventType: string, path: PathBuf)
      modifies this`invocations
      ensures invocations == old(invocations) + BroadcastInvocations(toStr, callbacks, Broadcast(eventType, path))
    {
      match toStr(path)
      case None =>
      case Some(text) =>
        var event := WatcherEvent(eventType, text);
        var i := 0;
        while i < |callbacks|
          invariant 0 <= i <= |callbacks|
          invariant invocations == old(invocations) + Fanout(callbacks[..i], event)
        {
          assert callbacks[..i + 1][..i] == callbacks[..i];
          invocations := invocations + [Invocation(callbacks[i], event)];
          i := i + 1;
        }
        assert callbacks[..i] == callbacks;
    }

    /** The body of the loop of `process_events`: the `match` on one event. */
    method HandleEvent(event: DebouncedEvent)
      modifies this`invocations
      ensures invocations == old(invocations) + AllInvocations(toStr, callbacks, Broadcasts(event))
    {
      match event {
        case Create(p) =>
          AllInvocationsOne(toStr, callbacks, Broadcast("create", p));
          BroadcastEvent("create", p);
        case Remove(p) =>
          AllInvocationsOne(toStr, callbacks, Broadcast("delete", p));
          BroadcastEvent("delete", p);
        case Write(p) =>
          AllInvocationsOne(toStr, callbacks, Broadcast("update", p));
          BroadcastEvent("update", p);
        case Chmod(p) =>
          AllInvocationsOne(toStr, callbacks, Broadcast("update", p));
          BroadcastEvent("update", p);
        case Rename(p1, p2) =>
          AllInvocationsTwo(toStr, callbacks, Broadcast("delete", p1), Broadcast("create", p2));
          BroadcastEvent("delete", p1);
          BroadcastEvent("create", p2);
        case _ =>
          assert Broadcasts(event) == [];
      }
    }

    /**
     * `process_events`: take every waiting event in the order the receiver
     * yields it and broadcast what it maps to. The callbacks are left as they
     * were and the receiver is drained.
     */
    method ProcessEvents()
      modifies this`invocations, this`pending
      ensures callbacks == old(callbacks) && pending == []
      ensures invocations == old(invocations) + Processed(toStr, callbacks, old(pending))
    {
      ghost var queue := pending;
      ghost var taken := 0;
      while pending != []
        invariant 0 <= taken <= |queue| && pending == queue[taken..]
        invariant invocations == old(invocations) + Processed(toStr, callbacks, queue[..taken])
        decreases |pending|
      {
        var event := pending[0];
        ProcessedPrefix(toStr, callbacks, queue, taken);
        pending := pending[1..];
        HandleEvent(event);
        taken := taken + 1;
      }
      assert queue[..taken] == queue;
    }
  }
}
