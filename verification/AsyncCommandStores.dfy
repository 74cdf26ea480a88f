/** The notification store specialised to results of asynchronous commands, and what it correlates. */
module AsyncCommandStores {
  import opened Bytes
  import opened AsyncCommands
  import opened NestedMaps
  import opened NotificationStores

  /** What `NotifySuccess` and `NotifyFailed` send: a nil error, like an empty one, means success. */
  function Notification(id: seq<Byte>, err: Option<seq<Byte>>): (k: AsyncCommandResult) {
    AsyncCommandResult(id, if err.Some? then err.value else [])
  }

  datatype Event =
    | Notified(name: NamespacedName, pod: Pod, id: seq<Byte>, err: Option<seq<Byte>>)
    | CleanedPod(name: NamespacedName, pod: Pod)
    | CleanedPods(name: NamespacedName)

  /** The latest notification about a resource and pod since they were last cleaned. */
  function Latest(events: seq<Event>, name: NamespacedName, pod: Pod): (r: Option<AsyncCommandResult>) {
    if events == [] then None
    else
      var init, last := events[..|events| - 1], events[|events| - 1];
      match last
      case Notified(n, p, id, err) =>
        if n == name && p == pod then Some(Notification(id, err)) else Latest(init, name, pod)
      case CleanedPod(n, p) => if n == name && p == pod then None else Latest(init, name, pod)
      case CleanedPods(n) => if n == name then None else Latest(init, name, pod)
  }

  function OpOf(e: Event): (op: Op<AsyncCommandResult>) {
    match e
    case Notified(n, p, id, err) => Put(n, p, PassNewValue, ParseAsyncCommandResult(Marshalled(Notification(id, err))))
    case CleanedPod(n, p) => CleanPod(n, p)
    case CleanedPods(n) => CleanPods(n)
  }

  function OpsOf(events: seq<Event>): (ops: seq<Op<AsyncCommandResult>>) {
    seq(|events|, i requires 0 <= i < |events| => OpOf(events[i]))
  }

  predicate Fits(e: Event) {
    e.Notified? ==> |e.id| < TWO_TO_32 && (e.err.Some? ==> |e.err.value| < TWO_TO_32)
  }

  predicate AllFit(events: seq<Event>) {
    forall i :: 0 <= i < |events| ==> Fits(events[i])
  }

  lemma OpsOfSnoc(events: seq<Event>, e: Event)
    ensures OpsOf(events + [e]) == OpsOf(events) + [OpOf(e)]
  {
  }

  lemma StepStoresLatest(flat: FlatMap<AsyncCommandResult>, e: Event, name: NamespacedName, pod: Pod)
    requires Fits(e)
    ensures ValueAt(ApplyFlat(flat, OpOf(e)), name, pod) ==
            match e
            case Notified(n, p, id, err) =>
              if n == name && p == pod then Some(Notification(id, err)) else ValueAt(flat, name, pod)
            case CleanedPod(n, p) => if n == name && p == pod then None else ValueAt(flat, name, pod)
            case CleanedPods(n) => if n == name then None else ValueAt(flat, name, pod)
  {
    hide Marshalled, UnmarshalBinary;
    if e.Notified? {
      ResultRoundTrip(Notification(e.id, e.err));
    }
  }

  /** After any history the store holds the latest notification since the last cleanup, decoded back to what
      was sent. */
  lemma {:induction false} StoresLatest(events: seq<Event>, name: NamespacedName, pod: Pod)
    requires AllFit(events)
    ensures ValueAt(RunFlat(OpsOf(events)), name, pod) == Latest(events, name, pod)
    decreases |events|
  {
    hide OpOf, ValueAt;
    if events == [] {
      EmptyStore(name, pod);
    } else {
      var init, last := events[..|events| - 1], events[|events| - 1];
      StoresLatest(init, name, pod);
      assert events == init + [last];
      OpsOfSnoc(init, last);
      RunFlatSnoc(OpsOf(init), OpOf(last));
      StepStoresLatest(RunFlat(OpsOf(init)), last, name, pod);
    }
  }

  lemma EmptyStore(name: NamespacedName, pod: Pod)
    ensures ValueAt(RunFlat(OpsOf([])), name, pod) == None
  {
  }

  /** The parser given to the notification store; `None` stands for a panic on a malformed payload. */
  function Parser(data: seq<Byte>): (r: Option<Option<AsyncCommandResult>>) {
    var k := ParseAsyncCommandResult(data);
    if k.Some? then Some(k) else None
  }

  datatype Outcome = Acked | Panicked

  lemma ParsedFits(data: seq<Byte>)
    requires ParseAsyncCommandResult(data).Some?
    ensures var k := ParseAsyncCommandResult(data).value; |k.commandId| < TWO_TO_32 && |k.error| < TWO_TO_32
  {
    hide GetUint32;
  }

  /** A payload that decodes to `k` does to the store what the notification of `k` does. */
  lemma HandledIsNotified(name: NamespacedName, pod: Pod, payload: seq<Byte>, k: AsyncCommandResult)
    requires ParseAsyncCommandResult(payload) == Some(k)
    ensures var e := Notified(name, pod, k.commandId, Some(k.error));
            && Fits(e) && OpOf(e) == Put(name, pod, PassNewValue, Some(k)) && Parser(payload) == Some(Some(k))
  {
    hide Marshalled, ParseAsyncCommandResult;
    ParsedFits(payload);
    ResultRoundTrip(k);
  }

  lemma LatestSnoc(events: seq<Event>, name: NamespacedName, pod: Pod, k: AsyncCommandResult)
    ensures Latest(events + [Notified(name, pod, k.commandId, Some(k.error))], name, pod) == Some(k)
  {
  }

  class AsyncCommandNotificationStore {
    const ns: NotificationStore<AsyncCommandResult>
    ghost var events: seq<Event>

    ghost predicate Valid()
      reads this, ns
    {
      ns.Valid() && ns.parser == Parser && AllFit(events) && ns.log == OpsOf(events)
    }

    constructor ()
      ensures Valid() && events == [] && fresh(ns)
    {
      ns := new NotificationStore(Parser);
      events := [];
    }

    /** A result is returned exactly when the latest notification since the last cleanup carries the id of the command,
        and it is that notification. */
    method GetCommandResult(name: NamespacedName, pod: Pod, command: seq<Byte>) returns (r: Option<AsyncCommandResult>)
      requires Valid()
      ensures r.Some? <==> Latest(events, name, pod).Some? && Latest(events, name, pod).value.commandId == command
      ensures r.Some? ==> r == Latest(events, name, pod)
    {
      StoresLatest(events, name, pod);
      var value := ns.GetPodNotification(name, pod);
      if value.None? {
        return None;
      }
      if value.value.commandId != command {
        return None;
      }
      return value;
    }

    method CleanPodsNotifications(name: NamespacedName)
      requires Valid()
      modifies this, ns
      ensures Valid() && events == old(events) + [CleanedPods(name)]
    {
      OpsOfSnoc(events, CleanedPods(name));
      ns.CleanPodsNotifications(name);
      events := events + [CleanedPods(name)];
    }

    method CleanPodNotification(name: NamespacedName, pod: Pod)
      requires Valid()
      modifies this, ns
      ensures Valid() && events == old(events) + [CleanedPod(name, pod)]
    {
      OpsOfSnoc(events, CleanedPod(name, pod));
      ns.CleanPodNotification(name, pod);
      events := events + [CleanedPod(name, pod)];
    }

    /** A payload that cannot be decoded makes the program panic; any other is acked and becomes the latest
        notification, whatever it decodes to. */
    method HandleMessage(name: NamespacedName, pod: Pod, payload: seq<Byte>) returns (outcome: Outcome)
      requires Valid()
      modifies this, ns
      ensures Valid()
      ensures outcome.Acked? <==> ParseAsyncCommandResult(payload).Some?
      ensures outcome.Panicked? ==> events == old(events) && ns.log == old(ns.log)
      ensures outcome.Acked? ==>
                var k := ParseAsyncCommandResult(payload).value;
                events == old(events) + [Notified(name, pod, k.commandId, Some(k.error))]
      ensures outcome.Acked? ==> Latest(events, name, pod) == ParseAsyncCommandResult(payload)
    {
      hide Marshalled, ParseAsyncCommandResult, Parser, OpOf, OpsOf, Latest, Fits, Flatten, Pruned, RunFlat, Enqueued;
      var parsed := ParseAsyncCommandResult(payload);
      if parsed.None? {
        return Panicked;
      }
      ghost var e := Notified(name, pod, parsed.value.commandId, Some(parsed.value.error));
      HandledIsNotified(name, pod, payload, parsed.value);
      OpsOfSnoc(events, e);
      LatestSnoc(events, name, pod, parsed.value);
      var acked := ns.HandleMessage(name, pod, PassNewValue, payload);
      events := events + [e];
      outcome := Acked;
    }
  }

  /** What `NotifySuccess` or `NotifyFailed` sent is what the store then answers for the id of that command. */
  lemma NotificationArrives(events: seq<Event>, name: NamespacedName, pod: Pod, id: seq<Byte>, err: Option<seq<Byte>>)
    requires Fits(Notified(name, pod, id, err))
    ensures var k := ParseAsyncCommandResult(Marshalled(Notification(id, err)));
            && k == Some(Notification(id, err))
            && Latest(events + [Notified(name, pod, k.value.commandId, Some(k.value.error))], name, pod) == k
            && k.value.commandId == id && (k.value.IsFailed() <==> err.Some? && err.value != [])
  {
    hide Marshalled, UnmarshalBinary;
    ResultRoundTrip(Notification(id, err));
  }
}
