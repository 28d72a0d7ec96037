/** `ShardedBroker`: which shards a message goes to. */
module Router {
  import opened Common
  import opened Topics
  import opened Broker

  datatype Routing = SingleShard(shard: nat) | Broadcast

  /** The hash is any function of the topic; no shards at all is answered with 0. */
  function ShardForTopic(hash: Str -> nat, topic: Str, n: nat): (i: nat)
    ensures n > 0 ==> i < n
  {
    if n == 0 then 0 else hash(topic) % n
  }

  function Route(hash: Str -> nat, n: nat, m: Msg): Routing {
    match m
    case Subscribe(_, filter) =>
      if IsWildcard(filter) then Broadcast else SingleShard(ShardForTopic(hash, filter, n))
    case Unsubscribe(_, filter) =>
      if IsWildcard(filter) then Broadcast else SingleShard(ShardForTopic(hash, filter, n))
    case Publish(_, packet) => SingleShard(ShardForTopic(hash, packet.topic, n))
    case Register(_, _) => Broadcast
    case Disconnect(_) => Broadcast
  }

  predicate GoesTo(hash: Str -> nat, n: nat, m: Msg, i: nat) {
    i < n && match Route(hash, n, m) case SingleShard(s) => s == i case Broadcast => true
  }

  /** Clients come and go everywhere, wildcard filters are kept everywhere, anything else is for the shard of its
      hash. */
  lemma Destinations(hash: Str -> nat, n: nat, m: Msg, i: nat)
    requires n >= 1
    ensures GoesTo(hash, n, m, i) <==>
            i < n &&
            match m
            case Register(_, _) => true
            case Disconnect(_) => true
            case Publish(_, packet) => i == hash(packet.topic) % n
            case Subscribe(_, f) => '+' as int in f || '#' as int in f || i == hash(f) % n
            case Unsubscribe(_, f) => '+' as int in f || '#' as int in f || i == hash(f) % n
  {
    if m.Subscribe? || m.Unsubscribe? {
      WildcardExactly(m.filter);
    }
  }

  class ShardedBroker {
    const hash: Str -> nat
    var channels: seq<seq<Msg>>
    var open: seq<bool>        // which broker threads still receive

    ghost predicate Valid()
      reads this
    {
      |channels| == |open| >= 1
    }

    constructor (hash: Str -> nat, n: nat)
      requires n >= 1
      ensures Valid() && this.hash == hash && channels == seq(n, _ => []) && open == seq(n, _ => true)
    {
      this.hash := hash;
      channels, open := seq(n, _ => []), seq(n, _ => true);
    }

    /** `Sender::send`: fails when the receiver is gone. */
    method SendTo(i: nat, msg: Msg) returns (ok: bool)
      requires Valid() && i < |channels|
      modifies this`channels
      ensures Valid() && ok == open[i]
      ensures channels == if ok then old(channels)[i := old(channels)[i] + [msg]] else old(channels)
    {
      ok := open[i];
      if ok {
        channels := channels[i := channels[i] + [msg]];
      }
    }

    /** Every open shard the message goes to gets it once, at the end of its channel; the others get nothing. */
    method Send(msg: Msg) returns (ok: bool)
      requires Valid()
      modifies this`channels
      ensures Valid() && |channels| == old(|channels|)
      ensures forall i :: 0 <= i < |channels| ==>
          channels[i] == old(channels)[i] + if GoesTo(hash, |channels|, msg, i) && open[i] then [msg] else []
      ensures ok <==> exists i :: 0 <= i < |channels| && GoesTo(hash, |channels|, msg, i) && open[i]
    {
      var n := |channels|;
      match Route(hash, n, msg)
      case SingleShard(shard) =>
        ok := SendTo(shard, msg);
      case Broadcast =>
        ok := false;
        for i := 0 to n
          invariant Valid() && |channels| == n
          invariant forall j :: 0 <= j < n ==>
              channels[j] == old(channels)[j] + if j < i && open[j] then [msg] else []
          invariant ok <==> exists j :: 0 <= j < i && open[j]
        {
          var sent := SendTo(i, msg);
          if sent {
            ok := true;
          }
        }
    }
  }
}
