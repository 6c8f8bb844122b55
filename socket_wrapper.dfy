/** The `SocketWrapper` class of src/websockets/socketWrapper.ts. One object of the
    Dafny class stands for the TypeScript class's static state, shared by all
    connections; `Connect` is the TypeScript constructor (one per new socket) and
    `Disconnect` and `SendMessageToAllSockets` are the instance methods run for the
    connection `conn` of user `userName`. Socket emits are appended to `outbox`. */
module Sockets {
  import opened Wrappers
  import opened ChatTypes
  import opened Pairing

  class SocketWrapper {
    var connectedUsers: map<string, seq<ConnId>>
    var pairs: map<string, Option<string>>
    var unPaired: seq<string>
    /** Every socket emit so far, in order. */
    var outbox: seq<Event>

    function Snapshot(): (s: State)
      reads this
    {
      State(connectedUsers, pairs, unPaired)
    }

    ghost predicate Valid()
      reads this
    {
      Inv(Snapshot())
    }

    /** The static initialisers: no user, no pair, an empty queue. */
    constructor ()
      ensures Valid() && Snapshot() == Empty && outbox == []
    {
      connectedUsers := map[];
      pairs := map[];
      unPaired := [];
      outbox := [];
    }

    /** `shiftQueue`: removes and returns the head of the queue, if any. */
    method ShiftQueue() returns (first: Option<string>)
      modifies this`unPaired
      ensures old(unPaired) == [] ==> first == None && unPaired == []
      ensures old(unPaired) != [] ==> first == Some(old(unPaired)[0]) && unPaired == old(unPaired)[1..]
    {
      if unPaired == [] {
        first := None;
      } else {
        first := Some(unPaired[0]);
        unPaired := unPaired[1..];
      }
    }

    /** A `forEach` over a connection set, emitting `p` to each connection in turn. */
    method EmitToAll(conns: seq<ConnId>, p: Payload)
      modifies this`outbox
      ensures outbox == old(outbox) + Broadcast(conns, p)
    {
      var i := 0;
      while i < |conns|
        invariant 0 <= i <= |conns|
        invariant outbox == old(outbox) + Broadcast(conns[..i], p)
      {
        assert Broadcast(conns[..i + 1], p) == Broadcast(conns[..i], p) + [Event(conns[i], p)];
        outbox := outbox + [Event(conns[i], p)];
        i := i + 1;
      }
      assert conns[..i] == conns;
    }

    /** The constructor: registers connection `conn` of `userName` and pairs or queues
        the user on a first connection. */
    method Connect(userName: string, conn: ConnId)
      requires Valid() && userName != "" && FreshConn(Snapshot(), conn)
      modifies this
      ensures Valid()
      ensures Snapshot() == Join(old(Snapshot()), userName, conn).next
      ensures outbox == old(outbox) + Join(old(Snapshot()), userName, conn).events
    {
      JoinPreservesInv(Snapshot(), userName, conn);
      if userName in connectedUsers {
        connectedUsers := connectedUsers[userName := connectedUsers[userName] + [conn]];
        var pairedWith := pairs[userName];
        if pairedWith.Some? {
          outbox := outbox + [Event(conn, FoundPair(pairedWith.value))];
        }
        return;
      }
      FirstConnection(userName, conn);
    }

    /** The constructor's branch for a user's first connection: pairs the user with
        the head of the queue, telling both sides, or queues the user. */
    method FirstConnection(userName: string, conn: ConnId)
      requires userName !in connectedUsers
      requires unPaired != [] ==> unPaired[0] in connectedUsers
      modifies this
      ensures Snapshot() == FirstJoin(old(Snapshot()), userName, conn).next
      ensures outbox == old(outbox) + FirstJoin(old(Snapshot()), userName, conn).events
    {
      connectedUsers := connectedUsers[userName := [conn]];
      var firstInQueue := ShiftQueue();
      if firstInQueue.None? {
        pairs := pairs[userName := None];
        unPaired := unPaired + [userName];
      } else {
        var partner := firstInQueue.value;
        pairs := pairs[userName := Some(partner)];
        pairs := pairs[partner := Some(userName)];
        var otherSockets := connectedUsers[partner];
        EmitToAll(otherSockets, FoundPair(userName));
        outbox := outbox + [Event(conn, FoundPair(partner))];
      }
    }

    /** `disconnect`: connection `conn` of `userName` closes. */
    method Disconnect(userName: string, conn: ConnId)
      requires Valid() && userName in connectedUsers && conn in connectedUsers[userName]
      modifies this
      ensures Valid()
      ensures Snapshot() == Leave(old(Snapshot()), userName, conn).next
      ensures outbox == old(outbox) + Leave(old(Snapshot()), userName, conn).events
    {
      ghost var s := Snapshot();
      LeavePreservesInv(s, userName, conn);
      LeaveCases(s, userName, conn);
      var userSockets := Without(connectedUsers[userName], conn);
      connectedUsers := connectedUsers[userName := userSockets];
      if |userSockets| > 0 {
        return;
      }
      ForgetUser(userName, s);
    }

    /** The rest of `disconnect` once the user's last connection is gone: the user
        leaves the queue or the partner is released; then the user's entries go. */
    method ForgetUser(userName: string, ghost s: State)
      requires userName in s.connectedUsers && (userName !in s.unPaired ==> CanRelease(s, userName))
      requires connectedUsers == s.connectedUsers[userName := []]
      requires pairs == s.pairs && unPaired == s.unPaired
      modifies this
      ensures Snapshot() == Forget(s, userName).next
      ensures outbox == old(outbox) + Forget(s, userName).events
    {
      var indexOfUnpaired := IndexOf(unPaired, userName);
      if indexOfUnpaired >= 0 {
        pairs := pairs - {userName};
        unPaired := unPaired[..indexOfUnpaired] + unPaired[indexOfUnpaired + 1..];
        assert pairs - {userName} == pairs;
      } else {
        ReleasePartner(userName, s);
      }
      pairs := pairs - {userName};
      connectedUsers := connectedUsers - {userName};
      assert connectedUsers == s.connectedUsers - {userName};
    }

    /** The part of `disconnect` for the last connection of a paired user: the partner
        is told, then re-paired with the head of the queue or queued. */
    method ReleasePartner(userName: string, ghost s: State)
      requires CanRelease(s, userName)
      requires connectedUsers == s.connectedUsers[userName := []]
      requires pairs == s.pairs && unPaired == s.unPaired
      modifies this`pairs, this`unPaired, this`outbox
      ensures pairs == Release(s, userName).next.pairs && unPaired == Release(s, userName).next.unPaired
      ensures outbox == old(outbox) + Release(s, userName).events
    {
      var pairedWith := pairs[userName].value;
      pairs := pairs[pairedWith := None];
      var otherSockets := connectedUsers[pairedWith];
      EmitToAll(otherSockets, PairDisconnected);
      var firstInQueue := ShiftQueue();
      if firstInQueue.None? {
        unPaired := unPaired + [pairedWith];
      } else {
        var first := firstInQueue.value;
        pairs := pairs[pairedWith := Some(first)];
        pairs := pairs[first := Some(pairedWith)];
        var fiqSockets := connectedUsers[first];
        EmitToAll(fiqSockets, FoundPair(pairedWith));
        EmitToAll(otherSockets, FoundPair(first));
      }
    }

    /** `sendMessageToAllSockets`: the sender's connections first, then the partner's;
        `PartnerMissing` when the sender has no partner and the second `forEach` fails. */
    method SendMessageToAllSockets(userName: string, message: ChatMessage) returns (outcome: Delivery)
      requires Valid() && userName in connectedUsers
      modifies this`outbox
      ensures outcome == Relay(Snapshot(), userName, message).0
      ensures outbox == old(outbox) + Relay(Snapshot(), userName, message).1
    {
      var mySockets := connectedUsers[userName];
      EmitToAll(mySockets, Message(message));
      var otherUser := pairs[userName];
      if otherUser.None? {
        return PartnerMissing;
      }
      var otherSockets := connectedUsers[otherUser.value];
      EmitToAll(otherSockets, Message(message));
      outcome := Delivered;
    }
  }
}
