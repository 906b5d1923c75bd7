/** The consumer's object: its name check and its registry. */
module ConsumerImplementation {
  import opened Tally
  import opened Bytes
  import opened Commands
  import opened CommandParser

  // ---------------------------------------------------------------- names

  predicate Alphanumeric(c: byte) {
    48 <= c <= 57 || 65 <= c <= 90 || 97 <= c <= 122
  }

  /** Letters, digits, underscore, hyphen and dot. */
  predicate TopicByte(c: byte) {
    Alphanumeric(c) || c == 95 || c == 45 || c == 46
  }

  /** And number sign and asterisk. */
  predicate ChannelByte(c: byte) {
    TopicByte(c) || c == 35 || c == 42
  }

  predicate ValidTopic(name: seq<byte>) {
    1 <= |name| <= 64 && forall i :: 0 <= i < |name| ==> TopicByte(name[i])
  }

  predicate ValidChannel(name: seq<byte>) {
    1 <= |name| <= 64 && forall i :: 0 <= i < |name| ==> ChannelByte(name[i])
  }

  lemma ValidIsPlain(name: seq<byte>)
    requires forall i :: 0 <= i < |name| ==> ChannelByte(name[i])
    ensures Plain(name)
  {
    assert !ChannelByte(SPACE) && !ChannelByte(NEWLINE);
  }

  /** The SUB line of every accepted consumer is read back by the server, whatever is sent after it. */
  lemma SubscriptionIsRead(topic: seq<byte>, channel: seq<byte>, rest: seq<byte>)
    requires ValidTopic(topic) && ValidChannel(channel)
    ensures Parse(Encode(Subscribe(topic, channel)) + rest) == Some((Subscribe(topic, channel), rest))
  {
    ValidIsPlain(topic);
    ValidIsPlain(channel);
    ParseEncode(Subscribe(topic, channel), rest);
  }

  // ---------------------------------------------------------------- the registry

  type Addr = string

  type ConnId = nat

  /** The reachable ones of the nodes were added, and the others stayed as they were. */
  ghost predicate Grown(before: map<Addr, ConnId>, nodes: seq<Addr>, dials: Addr -> bool, after: map<Addr, ConnId>) {
    && (forall a :: a in before ==> a in after && after[a] == before[a])
    && (forall a :: a in after <==> a in before || (a in nodes && dials(a)))
  }

  lemma GrownOn(before: map<Addr, ConnId>, nodes: seq<Addr>, i: nat, dials: Addr -> bool,
                between: map<Addr, ConnId>, after: map<Addr, ConnId>)
    requires i < |nodes| && Grown(before, nodes[..i], dials, between)
    requires after == between
          || (&& nodes[i] !in between && dials(nodes[i]) && nodes[i] in after
              && after == between[nodes[i] := after[nodes[i]]])
    requires after == between ==> nodes[i] in between || !dials(nodes[i])
    ensures Grown(before, nodes[..i + 1], dials, after)
  {
    assert nodes[..i + 1] == nodes[..i] + [nodes[i]];
  }

  class Consumer {
    const topic: seq<byte>
    const channel: seq<byte>
    var connections: map<Addr, ConnId>
    var connectionCount: int
    var isRunning: bool
    var spawned: seq<ConnId>      // a task was started for each of these
    var closed: seq<ConnId>       // close was called on each of these

    /** The counter is the size of the map, every connection is under one address, and each had its task
        started once. */
    ghost predicate Valid()
      reads this
    {
      && connectionCount == |connections|
      && (forall a :: a in connections ==> connections[a] < |spawned|)
      && (forall a, b :: a in connections && b in connections && connections[a] == connections[b] ==> a == b)
      && (forall i :: 0 <= i < |spawned| ==> spawned[i] == i)
    }

    constructor Empty(topic: seq<byte>, channel: seq<byte>)
      ensures Valid() && connections == map[] && isRunning && spawned == [] && closed == []
      ensures this.topic == topic && this.channel == channel
    {
      this.topic, this.channel := topic, channel;
      connections, connectionCount, isRunning, spawned, closed := map[], 0, true, [], [];
    }

    /** `Consumer::new`. */
    static method New(topic: seq<byte>, channel: seq<byte>) returns (c: Consumer?)
      ensures c != null <==> ValidTopic(topic) && ValidChannel(channel)
      ensures c != null ==> fresh(c) && c.Valid() && c.connections == map[] && c.topic == topic && c.channel == channel
    {
      if !ValidTopic(topic) || !ValidChannel(channel) {
        return null;
      }
      c := new Consumer.Empty(topic, channel);
    }

    /** The map is locked throughout; dials says whether the connection can be made. */
    method ConnectToNsqd(addr: Addr, dials: bool) returns (ok: bool)
      requires Valid()
      modifies this`connections, this`connectionCount, this`spawned
      ensures Valid()
      ensures ok <==> addr in old(connections) || dials
      ensures if addr !in old(connections) && dials
              then spawned == old(spawned) + [|old(spawned)|] && connections == old(connections)[addr := |old(spawned)|]
              else spawned == old(spawned) && connections == old(connections)
    {
      if addr in connections {
        return true;
      }
      if !dials {
        return false;
      }
      var conn := |spawned|;
      spawned := spawned + [conn];
      connections := connections[addr := conn];
      connectionCount := connectionCount + 1;
      return true;
    }

    method DisconnectFromNsqd(addr: Addr, closes: bool) returns (ok: bool)
      requires Valid()
      modifies this`connections, this`connectionCount, this`closed
      ensures Valid()
      ensures connections == old(connections) - {addr}
      ensures if addr in old(connections)
              then closed == old(closed) + [old(connections)[addr]] && ok == closes
              else closed == old(closed) && ok
    {
      if addr in connections {
        var conn := connections[addr];
        connections := connections - {addr};
        connectionCount := connectionCount - 1;
        closed := closed + [conn];
        return closes;
      }
      return true;
    }

    method Start()
      requires Valid()
      modifies this`isRunning
      ensures Valid() && isRunning
    {
      isRunning := true;
    }

    /** order is the order in which the map is drained, inTime the number of closes before the deadline. */
    method Stop(order: seq<Addr>, inTime: nat)
      requires Valid()
      requires forall a :: a in connections <==> a in order
      modifies this`connections, this`connectionCount, this`isRunning, this`closed
      ensures Valid() && connections == map[] && connectionCount == 0 && !isRunning
      ensures var n := if inTime < |order| then inTime else |order|;
              && |closed| == |old(closed)| + n && closed[..|old(closed)|] == old(closed)
              && forall i :: 0 <= i < n ==> closed[|old(closed)| + i] == old(connections)[order[i]]
    {
      isRunning := false;
      var drained := connections;
      connections := map[];
      var i := 0;
      while i < |order|
        modifies this`closed
        invariant 0 <= i <= |order| && i <= inTime
        invariant |closed| == |old(closed)| + i && closed[..|old(closed)|] == old(closed)
        invariant forall k :: 0 <= k < i ==> closed[|old(closed)| + k] == drained[order[k]]
      {
        if i == inTime {
          break;
        }
        closed := closed + [drained[order[i]]];
        i := i + 1;
      }
      connectionCount := 0;
    }

    /** One round of the lookup poll; a node that cannot be dialled is skipped. */
    method Poll(nodes: seq<Addr>, dials: Addr -> bool) returns (polling: bool)
      requires Valid()
      modifies this`connections, this`connectionCount, this`spawned
      ensures Valid() && polling == isRunning
      ensures Grown(old(connections), if isRunning then nodes else [], dials, connections)
    {
      if !isRunning {
        return false;
      }
      for i := 0 to |nodes|
        invariant Valid()
        invariant Grown(old(connections), nodes[..i], dials, connections)
      {
        ghost var before := connections;
        var _ := ConnectToNsqd(nodes[i], dials(nodes[i]));
        GrownOn(old(connections), nodes, i, dials, before, connections);
      }
      assert nodes[..|nodes|] == nodes;
      return true;
    }
  }
}
