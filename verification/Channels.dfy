/** Event masks, what epoll's report sets in a channel, and which handler that runs. */
module Channels {
  import opened Bytes

  const CHANNEL_READ: bv8 := 2
  const CHANNEL_WRITE: bv8 := 4
  const CHANNEL_TIMER: bv8 := 8

  predicate Has(mask: bv8, bit: bv8) {
    mask & bit != 0
  }

  /** C++'s `!` on an int: 1 for zero, 0 for everything else. */
  function LogicalNot(x: bv8): bv8 {
    if x == 0 then 1 else 0
  }

  /** One reported descriptor; `other` stands for any bit besides EPOLLIN and EPOLLOUT. */
  datatype Report = Report(fd: nat, readable: bool, writable: bool, other: bool)

  /** The active mask: EPOLLOUT is compared for equality, and the timer branch ends in `& !`. */
  function ActiveMask(r: Report, interest: bv8): bv8 {
    var onRead: bv8 := if r.readable then CHANNEL_READ else 0;
    var evt := onRead | (if r.writable && !r.readable && !r.other then CHANNEL_WRITE else 0);
    if Has(interest, CHANNEL_TIMER) then (evt | CHANNEL_TIMER) & LogicalNot(CHANNEL_READ) else evt
  }

  datatype Handler = NoHandler | ConnHandler | ReadHandler | WriteHandler | TimerHandler

  function Dispatch(active: bv8, isListenFd: bool): Handler {
    if isListenFd then ConnHandler
    else if Has(active, CHANNEL_READ) then ReadHandler
    else if Has(active, CHANNEL_WRITE) then WriteHandler
    else if Has(active, CHANNEL_TIMER) then TimerHandler
    else NoHandler
  }

  /** The wakeup channel, which waits for reads, gets its eventfd read whenever epoll reports it readable. */
  lemma WakeupIsRead(r: Report)
    requires r.readable
    ensures Dispatch(ActiveMask(r, CHANNEL_READ), false) == ReadHandler
  {
  }

  /** The write handler runs exactly when EPOLLOUT is the only bit reported; the read handler
      exactly when EPOLLIN is among them; a listening channel runs its connection handler
      whatever is reported. */
  lemma WhichHandler(r: Report, interest: bv8)
    requires !Has(interest, CHANNEL_TIMER)
    ensures Dispatch(ActiveMask(r, interest), false) == WriteHandler <==> r.writable && !r.readable && !r.other
    ensures Dispatch(ActiveMask(r, interest), false) == ReadHandler <==> r.readable
    ensures Dispatch(ActiveMask(r, interest), true) == ConnHandler
  {
  }

  /** A channel with timer interest never has any handler run, whatever is reported. */
  lemma TimerNeverRuns(r: Report, interest: bv8)
    requires Has(interest, CHANNEL_TIMER)
    ensures Dispatch(ActiveMask(r, interest), false) == NoHandler
  {
  }

  /** poll after epoll_wait: the known channels in the order reported, each with its mask. */
  method Collect(events: seq<Report>, channels: map<nat, bv8>) returns (ret: seq<nat>, active: map<nat, bv8>)
    requires forall i, j :: 0 <= i < j < |events| ==> events[i].fd != events[j].fd
    ensures ret == KnownFds(events, channels.Keys)
    ensures active.Keys == set i | 0 <= i < |events| && events[i].fd in channels :: events[i].fd
    ensures forall i :: 0 <= i < |events| && events[i].fd in channels ==>
              active[events[i].fd] == ActiveMask(events[i], channels[events[i].fd])
  {
    ret, active := [], map[];
    for i := 0 to |events|
      invariant ret == KnownFds(events[..i], channels.Keys)
      invariant active.Keys == set j | 0 <= j < i && events[j].fd in channels :: events[j].fd
      invariant forall j :: 0 <= j < i && events[j].fd in channels ==>
                  active[events[j].fd] == ActiveMask(events[j], channels[events[j].fd])
    {
      assert events[..i + 1][..i] == events[..i];
      var id := events[i].fd;
      if id in channels {
        active := active[id := ActiveMask(events[i], channels[id])];
        ret := ret + [id];
      }
    }
    assert events[..|events|] == events;
  }

  function KnownFds(events: seq<Report>, known: set<nat>): seq<nat> {
    if events == [] then [] else
      var last := events[|events| - 1].fd;
      KnownFds(events[..|events| - 1], known) + (if last in known then [last] else [])
  }
}
