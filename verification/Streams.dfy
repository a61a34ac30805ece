/** One stream of the pool (pkg/proxy/stream_queue.go, turn-client.go): its state and its two bounded queues. */
module Streams {
  import opened Silence

  /** A packet is told apart by number. */
  datatype Packet = Packet(id: nat, size: nat)

  const PRIORITY_PACKET_SIZE := 128
  const PRIORITY_BURST := 8

  class Stream {
    var ready: bool
    var activity: StreamActivity?
    var overTCP: bool
    var sendStalled: bool
    var priority: seq<Packet>
    var ordinary: seq<Packet>
    const priorityCap: nat
    const ordinaryCap: nat

    constructor (priorityCap: nat, ordinaryCap: nat)
      ensures !ready && activity == null && !overTCP && !sendStalled && priority == [] && ordinary == []
      ensures this.priorityCap == priorityCap && this.ordinaryCap == ordinaryCap
    {
      this.priorityCap, this.ordinaryCap := priorityCap, ordinaryCap;
      ready, activity, overTCP, sendStalled, priority, ordinary := false, null, false, false, [], [];
    }

    predicate DispatchStale(now: int)
      reads this, activity
    {
      activity != null && activity.Stale(now)
    }

    /** The packet changes hands only if it is taken. */
    method EnqueuePriority(pkt: Packet) returns (taken: bool)
      modifies this`priority
      ensures taken == (overTCP && old(|priority|) < priorityCap)
      ensures priority == if taken then old(priority) + [pkt] else old(priority)
    {
      taken := overTCP && |priority| < priorityCap;
      if taken { priority := priority + [pkt]; }
    }

    method Enqueue(pkt: Packet) returns (taken: bool)
      modifies this`ordinary
      ensures taken == (old(|ordinary|) < ordinaryCap)
      ensures ordinary == if taken then old(ordinary) + [pkt] else old(ordinary)
    {
      taken := |ordinary| < ordinaryCap;
      if taken { ordinary := ordinary + [pkt]; }
    }

    /** drainOutbound: both queues emptied, every packet of them counted. */
    method DrainOutbound() returns (dropped: nat)
      modifies this`priority, this`ordinary
      ensures priority == [] && ordinary == [] && dropped == old(|priority| + |ordinary|)
    {
      dropped := 0;
      while priority != []
        invariant dropped + |priority| == old(|priority|) && ordinary == old(ordinary)
        decreases |priority|
      {
        priority, dropped := priority[1..], dropped + 1;
      }
      while ordinary != []
        invariant dropped + |ordinary| == old(|priority| + |ordinary|) && priority == []
        decreases |ordinary|
      {
        ordinary, dropped := ordinary[1..], dropped + 1;
      }
    }
  }
}
