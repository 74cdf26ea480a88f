/** The pull based message queue between the service and the loops that consume a connection. */
module MessageQueue {

  datatype PollResult<+T> = Polled(msg: T) | Nil | StillBlocked

  /** One wake-up of a waiting poll: what was appended in the meantime, and whether its context is closed. */
  datatype WakeUp<+T> = WakeUp(arrived: seq<T>, closed: bool)

  function Arrived<T>(ws: seq<WakeUp<T>>): (a: seq<T>) {
    if ws == [] then [] else Arrived(ws[..|ws| - 1]) + ws[|ws| - 1].arrived
  }

  lemma ArrivedSnoc<T>(ws: seq<WakeUp<T>>, n: nat)
    requires n < |ws|
    ensures Arrived(ws[..n + 1]) == Arrived(ws[..n]) + ws[n].arrived && Arrived(ws[..0]) == []
  {
    assert ws[..n + 1][..n] == ws[..n];
  }

  class UnboundedMessageQueue<T> {
    var queue: seq<T>

    constructor ()
      ensures queue == []
    {
      queue := [];
    }

    method Append(msg: T)
      modifies this
      ensures queue == old(queue) + [msg]
    {
      queue := queue + [msg];
    }

    method Prepend(msg: T)
      modifies this
      ensures queue == [msg] + old(queue)
    {
      queue := [msg] + queue;
    }

    /** `blockingPoll`, with the wake-ups the environment will give it. Nothing but the returned head leaves the queue;
        nil is returned only if the context was closed, on entry or at the last wake-up used, and otherwise the head
        of a queue that was empty until that wake-up. */
    method BlockingPoll(closed: bool, wakeUps: seq<WakeUp<T>>) returns (r: PollResult<T>, used: nat)
      modifies this
      ensures used <= |wakeUps|
      ensures old(queue) + Arrived(wakeUps[..used]) == (if r.Polled? then [r.msg] else []) + queue
      ensures closed ==> r.Nil? && used == 0
      ensures r.Nil? ==> closed || (used > 0 && wakeUps[used - 1].closed)
      ensures r.StillBlocked? ==> used == |wakeUps| && queue == []
      ensures !closed && old(queue) != [] ==> r == Polled(old(queue)[0]) && used == 0
      ensures forall i :: 0 <= i < used - 1 ==> !wakeUps[i].closed && wakeUps[i].arrived == []
    {
      used := 0;
      if closed {
        return Nil, 0;
      }
      while |queue| == 0
        invariant used <= |wakeUps|
        invariant old(queue) + Arrived(wakeUps[..used]) == queue
        invariant used > 0 ==> old(queue) == [] && !wakeUps[used - 1].closed && wakeUps[used - 1].arrived == queue
        invariant forall i :: 0 <= i < used - 1 ==> !wakeUps[i].closed && wakeUps[i].arrived == []
        decreases |wakeUps| - used
      {
        if used == |wakeUps| {
          return StillBlocked, used;
        }
        queue := queue + wakeUps[used].arrived;
        ArrivedSnoc(wakeUps, used);
        used := used + 1;
        if wakeUps[used - 1].closed {
          return Nil, used;
        }
      }
      var msg := queue[0];
      queue := queue[1..];
      return Polled(msg), used;
    }
  }
}
