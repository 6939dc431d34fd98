/**
 The thread-safe queue: its event is set when something is put into the empty
 queue, and never otherwise.
 */
module CplQueue {
  import opened Options

  /** An event of the operating system that stays signalled until it is reset. */
  class Event {
    var signaled: bool

    constructor (initially: bool)
      ensures signaled == initially
    {
      signaled := initially;
    }

    method Set()
      modifies this
      ensures signaled
    {
      signaled := true;
    }

    method Reset()
      modifies this
      ensures !signaled
    {
      signaled := false;
    }
  }

  class CQueue<T> {
    const hEvent: Event
    var items: seq<T>

    constructor (hEvent: Event)
      ensures this.hEvent == hEvent && items == []
    {
      this.hEvent := hEvent;
      items := [];
    }

    method Push(item: T)
      modifies this, hEvent
      ensures items == old(items) + [item]
      ensures hEvent.signaled == (old(hEvent.signaled) || old(items) == [])
    {
      if |items| == 0 {
        hEvent.Set();
      }
      items := items + [item];
    }

    method Front(pop: bool) returns (head: Option<T>)
      modifies this
      ensures head == if old(items) == [] then None else Some(old(items)[0])
      ensures items == if pop && old(items) != [] then old(items)[1..] else old(items)
    {
      head := None;
      if |items| != 0 {
        head := Some(items[0]);
        if pop {
          items := items[1..];
        }
      }
    }

    method GetSize() returns (size: nat)
      ensures size == |items|
    {
      size := |items|;
    }

    method ResetIfEmpty()
      modifies hEvent
      ensures hEvent.signaled == (old(hEvent.signaled) && items != [])
    {
      if |items| == 0 {
        hEvent.Reset();
      }
    }
  }
}
