/** The pairing engine of src/websockets/socketWrapper.ts as a state machine over
    values: the three static collections of `SocketWrapper`, the transitions run by
    its constructor (`Join`), by `disconnect` (`Leave`) and by
    `sendMessageToAllSockets` (`Relay`), the invariant they keep, and what the
    socket emits they produce say. */
module Pairing {
  import opened Wrappers
  import opened ChatTypes

  /** A connection (one `SocketWrapper` object, i.e. one socket). */
  type ConnId = nat

  /** What a socket emit carries: `foundPair`, `pairDisconnected` or `message`. */
  datatype Payload = FoundPair(partner: string) | PairDisconnected | Message(msg: ChatMessage)

  /** One socket emit, addressed to one connection. */
  datatype Event = Event(to: ConnId, payload: Payload)

  /** The static state of `SocketWrapper`. A JavaScript `Set` iterates in insertion
      order, so each user's connections are a sequence without repetitions. */
  datatype State = State(
    connectedUsers: map<string, seq<ConnId>>,
    pairs: map<string, Option<string>>,
    unPaired: seq<string>)

  /** The state when the server starts. */
  const Empty := State(map[], map[], [])

  /** Where a user stands: not connected, waiting in the queue, or paired. */
  datatype Status = Absent | Waiting | Paired(partner: string)

  function StatusOf(s: State, u: string): (st: Status)
  {
    if u !in s.pairs then Absent
    else if s.pairs[u].None? then Waiting
    else Paired(s.pairs[u].value)
  }

  predicate NoDup<T(==)>(s: seq<T>)
  {
    forall i, j :: 0 <= i < j < |s| ==> s[i] != s[j]
  }

  lemma NoDupTail<T>(s: seq<T>)
    requires s != []
    ensures NoDup(s) ==> NoDup(s[1..]) && s[0] !in s[1..]
  {
    assert forall i, j :: 0 <= i < j < |s[1..]| ==> s[1..][i] == s[i + 1] && s[1..][j] == s[j + 1];
  }

  lemma NoDupCons<T>(x: T, s: seq<T>)
    ensures NoDup(s) && x !in s ==> NoDup([x] + s)
  {
    if NoDup(s) && x !in s {
      forall i, j | 0 <= i < j < |[x] + s| ensures ([x] + s)[i] != ([x] + s)[j] {
        assert ([x] + s)[j] == s[j - 1];
        if 0 < i {
          assert ([x] + s)[i] == s[i - 1];
        }
      }
    }
  }

  lemma NoDupAppend<T>(s: seq<T>, x: T)
    requires NoDup(s) && x !in s
    ensures NoDup(s + [x])
  {
  }

  /** `s` without `x`, the rest in their original order. */
  function Without<T(==,!new)>(s: seq<T>, x: T): (r: seq<T>)
    ensures forall y :: y in r <==> y in s && y != x
    ensures x !in s ==> r == s
    ensures NoDup(s) ==> NoDup(r)
    ensures NoDup(s) && x in s ==> |r| == |s| - 1
  {
    if s == [] then []
    else
      NoDupTail(s);
      if s[0] == x then Without(s[1..], x)
      else
        var r := [s[0]] + Without(s[1..], x);
        NoDupCons(s[0], Without(s[1..], x));
        assert s == [s[0]] + s[1..];
        r
  }

  /** `Array.prototype.indexOf`: the first position of `x`, or -1. */
  function IndexOf<T(==)>(s: seq<T>, x: T): (i: int)
    ensures -1 <= i < |s|
    ensures i == -1 <==> x !in s
    ensures 0 <= i ==> s[i] == x && x !in s[..i]
  {
    if s == [] then -1
    else if s[0] == x then 0
    else var j := IndexOf(s[1..], x); if j == -1 then -1 else j + 1
  }

  /** Removing the first occurrence of a value that occurs once (`splice(indexOf(x), 1)`)
      is removing the value, and keeps the others in order. */
  lemma {:induction false} SpliceIsWithout<T(!new)>(s: seq<T>, x: T)
    requires NoDup(s) && x in s
    ensures s[..IndexOf(s, x)] + s[IndexOf(s, x) + 1..] == Without(s, x)
  {
    NoDupTail(s);
    if s[0] != x {
      SpliceIsWithout(s[1..], x);
      var j := IndexOf(s[1..], x);
      assert IndexOf(s, x) == j + 1;
      assert s[..j + 1] == [s[0]] + s[1..][..j];
      assert s[j + 2..] == s[1..][j + 1..];
    }
  }

  /** The connections the events are addressed to, in emit order. */
  function Recipients(es: seq<Event>): (cs: seq<ConnId>)
  {
    seq(|es|, i requires 0 <= i < |es| => es[i].to)
  }

  /** A `forEach` over `conns` emitting the same payload to each: one event per
      connection, in the connections' order, each carrying `p`. */
  function Broadcast(conns: seq<ConnId>, p: Payload): (es: seq<Event>)
    ensures Recipients(es) == conns
    ensures forall e :: e in es ==> e.payload == p
  {
    seq(|conns|, i requires 0 <= i < |conns| => Event(conns[i], p))
  }

  // ---------------------------------------------------------------------------
  // The invariant

  /** Every connected user has a `pairs` entry and vice versa. */
  ghost predicate KeysAgree(s: State)
  {
    s.pairs.Keys == s.connectedUsers.Keys
  }

  /** Every connection set is non-empty and holds each connection once. */
  ghost predicate ConnSetsValid(s: State)
  {
    forall u :: u in s.connectedUsers ==> s.connectedUsers[u] != [] && NoDup(s.connectedUsers[u])
  }

  /** Every connection belongs to one user only. */
  ghost predicate ConnsDisjoint(s: State)
  {
    forall u, v, c :: u in s.connectedUsers && v in s.connectedUsers && c in s.connectedUsers[u] && c in s.connectedUsers[v] ==> u == v
  }

  /** The queue holds each user at most once, and exactly the users without a partner. */
  ghost predicate QueueValid(s: State)
  {
    && NoDup(s.unPaired)
    && (forall u :: u in s.unPaired ==> u in s.pairs && s.pairs[u].None?)
    && (forall u :: u in s.pairs && s.pairs[u].None? ==> u in s.unPaired)
  }

  /** A user's partner is another connected user whose partner is that user. */
  ghost predicate PairsSymmetric(s: State)
  {
    forall u :: u in s.pairs && s.pairs[u].Some? ==>
      var p := s.pairs[u].value;
      p != u && p in s.pairs && s.pairs[p] == Some(u)
  }

  ghost predicate Inv(s: State)
  {
    && "" !in s.connectedUsers
    && KeysAgree(s)
    && ConnSetsValid(s)
    && ConnsDisjoint(s)
    && QueueValid(s)
    && PairsSymmetric(s)
  }

  /** A connection that no user holds yet: a freshly constructed `SocketWrapper`. */
  ghost predicate FreshConn(s: State, c: ConnId)
  {
    forall u :: u in s.connectedUsers ==> c !in s.connectedUsers[u]
  }

  /** The invariant in terms of each user's standing: a connected user is never
      absent, waits exactly when queued, and is its partner's partner. */
  lemma InvStatuses(s: State, u: string)
    requires Inv(s)
    ensures u in s.connectedUsers <==> StatusOf(s, u) != Absent
    ensures StatusOf(s, u) == Waiting <==> u in s.unPaired
    ensures StatusOf(s, u).Paired? ==>
      var p := StatusOf(s, u).partner; p != u && p in s.connectedUsers && StatusOf(s, p) == Paired(u)
  {
  }

  lemma EmptyValid()
    ensures Inv(Empty)
  {
  }

  /** A state and the events emitted on the way to it. */
  datatype Step = Step(next: State, events: seq<Event>)

  // ---------------------------------------------------------------------------
  // Join: the constructor

  /** A new connection `conn` of `user`. A further connection joins the user's set and,
      when the user is paired, is told the partner; a first connection goes to
      `FirstJoin`. */
  function Join(s: State, user: string, conn: ConnId): (r: Step)
    requires Inv(s)
    ensures r.next.connectedUsers.Keys == s.connectedUsers.Keys + {user}
    ensures conn in r.next.connectedUsers[user]
  {
    if user in s.connectedUsers then
      var st := s.(connectedUsers := s.connectedUsers[user := s.connectedUsers[user] + [conn]]);
      if s.pairs[user].Some? then Step(st, [Event(conn, FoundPair(s.pairs[user].value))])
      else Step(st, [])
    else
      FirstJoin(s, user, conn)
  }

  /** A first connection: the user pairs with the head of the queue, both sides being
      told, or is queued when the queue is empty. The only lookup that needs the
      state's consistency is that of the queue head's connections. */
  function FirstJoin(s: State, user: string, conn: ConnId): (r: Step)
    requires s.unPaired != [] ==> s.unPaired[0] in s.connectedUsers
    ensures r.next.connectedUsers.Keys == s.connectedUsers.Keys + {user}
    ensures user in r.next.pairs && (r.next.pairs[user].None? <==> s.unPaired == [])
    ensures r.events == [] <==> s.unPaired == []
  {
    var cu := s.connectedUsers[user := [conn]];
    if s.unPaired == [] then
      Step(State(cu, s.pairs[user := None], [user]), [])
    else
      var p := s.unPaired[0];
      Step(State(cu, s.pairs[user := Some(p)][p := Some(user)], s.unPaired[1..]),
           Broadcast(s.connectedUsers[p], FoundPair(user)) + [Event(conn, FoundPair(p))])
  }

  /** Case: a further connection joins an existing set. */
  lemma AddConnKeepsInv(s: State, user: string, conn: ConnId)
    requires Inv(s) && user in s.connectedUsers && FreshConn(s, conn)
    ensures Inv(s.(connectedUsers := s.connectedUsers[user := s.connectedUsers[user] + [conn]]))
  {
    var t := s.(connectedUsers := s.connectedUsers[user := s.connectedUsers[user] + [conn]]);
    NoDupAppend(s.connectedUsers[user], conn);
    assert ConnSetsValid(t);
    forall u, v, c | u in t.connectedUsers && v in t.connectedUsers && c in t.connectedUsers[u] && c in t.connectedUsers[v]
      ensures u == v
    {
      if c == conn {
        assert u == user && v == user;
      } else {
        assert c in s.connectedUsers[u] && c in s.connectedUsers[v];
      }
    }
  }

  /** Case: a first connection finds the queue empty. */
  lemma QueueUserKeepsInv(s: State, user: string, conn: ConnId)
    requires Inv(s) && user != "" && user !in s.connectedUsers && s.unPaired == [] && FreshConn(s, conn)
    ensures Inv(State(s.connectedUsers[user := [conn]], s.pairs[user := None], [user]))
  {
    var t := State(s.connectedUsers[user := [conn]], s.pairs[user := None], [user]);
    forall u, v, c | u in t.connectedUsers && v in t.connectedUsers && c in t.connectedUsers[u] && c in t.connectedUsers[v]
      ensures u == v
    {
      if u != user && v != user {
        assert c in s.connectedUsers[u] && c in s.connectedUsers[v];
      }
    }
    assert QueueValid(t);
    assert PairsSymmetric(t);
  }

  /** Case: a first connection pairs with the head of the queue. */
  lemma PairWithHeadKeepsInv(s: State, user: string, conn: ConnId)
    requires Inv(s) && user != "" && user !in s.connectedUsers && s.unPaired != [] && FreshConn(s, conn)
    ensures var p := s.unPaired[0];
      Inv(State(s.connectedUsers[user := [conn]], s.pairs[user := Some(p)][p := Some(user)], s.unPaired[1..]))
  {
    var p := s.unPaired[0];
    var t := State(s.connectedUsers[user := [conn]], s.pairs[user := Some(p)][p := Some(user)], s.unPaired[1..]);
    NoDupTail(s.unPaired);
    assert p in s.pairs && s.pairs[p].None? && p != user;
    forall u, v, c | u in t.connectedUsers && v in t.connectedUsers && c in t.connectedUsers[u] && c in t.connectedUsers[v]
      ensures u == v
    {
      if u != user && v != user {
        assert c in s.connectedUsers[u] && c in s.connectedUsers[v];
      }
    }
    forall u | u in t.unPaired ensures u in t.pairs && t.pairs[u].None? {
      assert u in s.unPaired && u != p && u != user;
    }
    forall u | u in t.pairs && t.pairs[u].None? ensures u in t.unPaired {
      assert u != p && u != user && u in s.unPaired;
      assert s.unPaired == [p] + t.unPaired;
    }
    forall u | u in t.pairs && t.pairs[u].Some?
      ensures var q := t.pairs[u].value; q != u && q in t.pairs && t.pairs[q] == Some(u)
    {
      if u != p && u != user {
        var q := s.pairs[u].value;
        assert q != p && q != user;
      }
    }
  }

  lemma {:induction false} JoinPreservesInv(s: State, user: string, conn: ConnId)
    requires Inv(s) && user != "" && FreshConn(s, conn)
    ensures Inv(Join(s, user, conn).next)
  {
    if user in s.connectedUsers {
      AddConnKeepsInv(s, user, conn);
    } else if s.unPaired == [] {
      QueueUserKeepsInv(s, user, conn);
    } else {
      PairWithHeadKeepsInv(s, user, conn);
    }
  }

  /** A further connection of a user only joins that user's connection set; if the user
      is paired, the new connection alone is told the partner. */
  lemma JoinAgain(s: State, user: string, conn: ConnId)
    requires Inv(s) && user in s.connectedUsers
    ensures var r := Join(s, user, conn);
      && r.next.connectedUsers == s.connectedUsers[user := s.connectedUsers[user] + [conn]]
      && r.next.pairs == s.pairs && r.next.unPaired == s.unPaired
      && r.events == (if StatusOf(s, user).Paired? then [Event(conn, FoundPair(StatusOf(s, user).partner))] else [])
  {
  }

  /** A first connection finding the queue empty puts the user at the tail of the queue,
      waiting, and emits nothing. */
  lemma JoinQueueEmpty(s: State, user: string, conn: ConnId)
    requires Inv(s) && user !in s.connectedUsers && s.unPaired == []
    ensures var r := Join(s, user, conn);
      && StatusOf(r.next, user) == Waiting
      && r.next.unPaired == s.unPaired + [user]
      && r.next.connectedUsers == s.connectedUsers[user := [conn]]
      && r.events == []
  {
  }

  /** A first connection finding the queue non-empty takes the earliest queued user as
      partner, on both sides; every connection of the partner is told the new user, and
      then the new connection is told the partner. */
  lemma JoinQueueNonEmpty(s: State, user: string, conn: ConnId)
    requires Inv(s) && user !in s.connectedUsers && s.unPaired != []
    ensures var r := Join(s, user, conn); var p := s.unPaired[0];
      && StatusOf(r.next, user) == Paired(p)
      && StatusOf(r.next, p) == Paired(user)
      && r.next.unPaired == s.unPaired[1..]
      && r.next.connectedUsers == s.connectedUsers[user := [conn]]
      && r.events == Broadcast(s.connectedUsers[p], FoundPair(user)) + [Event(conn, FoundPair(p))]
  {
  }

  /** Joining changes the standing of nobody but the joining user and the partner it takes. */
  lemma JoinLeavesOthers(s: State, user: string, conn: ConnId, v: string)
    requires Inv(s) && v != user
    requires user !in s.connectedUsers && s.unPaired != [] ==> v != s.unPaired[0]
    ensures StatusOf(Join(s, user, conn).next, v) == StatusOf(s, v)
    ensures v in s.connectedUsers ==> Join(s, user, conn).next.connectedUsers[v] == s.connectedUsers[v]
  {
  }

  /** Every `foundPair` a connection receives names the partner its user now has. */
  ghost predicate Truthful(t: State, es: seq<Event>)
  {
    forall u, i :: u in t.connectedUsers && 0 <= i < |es| && es[i].to in t.connectedUsers[u] && es[i].payload.FoundPair? ==>
      u in t.pairs && t.pairs[u] == Some(es[i].payload.partner)
  }

  /** Some connected user holds connection `c`. */
  ghost predicate Live(t: State, c: ConnId)
  {
    exists u :: u in t.connectedUsers && c in t.connectedUsers[u]
  }

  /** Every event goes to a connection that is live afterwards. */
  ghost predicate AllLive(t: State, es: seq<Event>)
  {
    forall i :: 0 <= i < |es| ==> Live(t, es[i].to)
  }

  /** Emitting to connections of one user `w` is truthful when a `foundPair` names
      `w`'s partner. */
  lemma BroadcastTruthful(t: State, w: string, conns: seq<ConnId>, p: Payload)
    requires Inv(t) && w in t.connectedUsers
    requires forall c :: c in conns ==> c in t.connectedUsers[w]
    requires p.FoundPair? ==> t.pairs[w] == Some(p.partner)
    ensures Truthful(t, Broadcast(conns, p)) && AllLive(t, Broadcast(conns, p))
  {
    var es := Broadcast(conns, p);
    forall u, i | u in t.connectedUsers && 0 <= i < |es| && es[i].to in t.connectedUsers[u] && es[i].payload.FoundPair?
      ensures u in t.pairs && t.pairs[u] == Some(es[i].payload.partner)
    {
      assert es[i].to in t.connectedUsers[w];
    }
    forall i | 0 <= i < |es| ensures Live(t, es[i].to) {
      assert es[i].to in t.connectedUsers[w];
    }
  }

  lemma ConcatTruthful(t: State, a: seq<Event>, b: seq<Event>)
    requires Truthful(t, a) && AllLive(t, a) && Truthful(t, b) && AllLive(t, b)
    ensures Truthful(t, a + b) && AllLive(t, a + b)
  {
    forall u, i | u in t.connectedUsers && 0 <= i < |a + b| && (a + b)[i].to in t.connectedUsers[u] && (a + b)[i].payload.FoundPair?
      ensures u in t.pairs && t.pairs[u] == Some((a + b)[i].payload.partner)
    {
      if i >= |a| {
        assert (a + b)[i] == b[i - |a|];
      }
    }
    forall i | 0 <= i < |a + b| ensures Live(t, (a + b)[i].to) {
      if i >= |a| {
        assert (a + b)[i] == b[i - |a|];
      }
    }
  }

  /** The `foundPair`s of a first connection that pairs with the queue head. */
  lemma PairWithHeadNotifiesTruthfully(s: State, user: string, conn: ConnId)
    requires Inv(s) && user !in s.connectedUsers && s.unPaired != []
    requires Inv(FirstJoin(s, user, conn).next)
    ensures Truthful(FirstJoin(s, user, conn).next, FirstJoin(s, user, conn).events)
    ensures AllLive(FirstJoin(s, user, conn).next, FirstJoin(s, user, conn).events)
  {
    var t := FirstJoin(s, user, conn).next;
    var p := s.unPaired[0];
    assert p in s.connectedUsers && t.connectedUsers[p] == s.connectedUsers[p];
    BroadcastTruthful(t, p, s.connectedUsers[p], FoundPair(user));
    assert [Event(conn, FoundPair(p))] == Broadcast([conn], FoundPair(p));
    BroadcastTruthful(t, user, [conn], FoundPair(p));
    ConcatTruthful(t, Broadcast(s.connectedUsers[p], FoundPair(user)), Broadcast([conn], FoundPair(p)));
  }

  lemma {:induction false} JoinNotifiesTruthfully(s: State, user: string, conn: ConnId)
    requires Inv(s) && user != "" && FreshConn(s, conn)
    ensures Truthful(Join(s, user, conn).next, Join(s, user, conn).events)
    ensures AllLive(Join(s, user, conn).next, Join(s, user, conn).events)
  {
    var r := Join(s, user, conn);
    var t := r.next;
    JoinPreservesInv(s, user, conn);
    if user in s.connectedUsers {
      if s.pairs[user].Some? {
        assert r.events == Broadcast([conn], FoundPair(s.pairs[user].value));
        BroadcastTruthful(t, user, [conn], FoundPair(s.pairs[user].value));
      } else {
        assert r.events == [];
      }
    } else if s.unPaired != [] {
      PairWithHeadNotifiesTruthfully(s, user, conn);
    }
  }


  // ---------------------------------------------------------------------------
  // Leave: disconnect

  /** Connection `conn` of `user` closes. Unless it was the user's last connection,
      nothing else happens; otherwise the user is forgotten. */
  function Leave(s: State, user: string, conn: ConnId): (r: Step)
    requires Inv(s) && user in s.connectedUsers && conn in s.connectedUsers[user]
    ensures r.next.connectedUsers.Keys <= s.connectedUsers.Keys
    ensures user in r.next.connectedUsers <==> |s.connectedUsers[user]| > 1
  {
    var rest := Without(s.connectedUsers[user], conn);
    if |rest| > 0 then Step(s.(connectedUsers := s.connectedUsers[user := rest]), [])
    else
      InvCanRelease(s, user);
      Forget(s, user)
  }

  /** The last connection of `user` is gone: a waiting user leaves the queue (splicing
      it out at its index), a paired user's partner is released; then the user's
      entries go. */
  function Forget(s: State, user: string): (r: Step)
    requires user in s.connectedUsers
    requires user !in s.unPaired ==> CanRelease(s, user)
    ensures r.next.connectedUsers == s.connectedUsers - {user} && user !in r.next.pairs
    ensures user in s.unPaired ==> r.events == []
  {
    var i := IndexOf(s.unPaired, user);
    var r := if i >= 0 then Step(s.(unPaired := s.unPaired[..i] + s.unPaired[i + 1..]), [])
             else Release(s, user);
    Step(State(s.connectedUsers - {user}, r.next.pairs - {user}, r.next.unPaired), r.events)
  }

  /** What `Release` relies on: the user has a partner other than itself, and the
      partner and the queue head (someone else) are connected. */
  ghost predicate CanRelease(s: State, user: string)
  {
    && user in s.pairs && s.pairs[user].Some?
    && s.pairs[user].value in s.connectedUsers && s.pairs[user].value != user
    && (s.unPaired != [] ==> s.unPaired[0] in s.connectedUsers && s.unPaired[0] != user)
  }

  lemma InvCanRelease(s: State, user: string)
    requires Inv(s) && user in s.connectedUsers
    ensures user !in s.unPaired ==> CanRelease(s, user)
  {
  }

  /** The partner of a paired `user` is told of the disconnection, then paired with the
      head of the queue (both sides told) or queued at its tail. */
  function Release(s: State, user: string): (r: Step)
    requires CanRelease(s, user)
    ensures var partner := s.pairs[user].value; var others := s.connectedUsers[partner];
      && |others| <= |r.events| && r.events[..|others|] == Broadcast(others, PairDisconnected)
      && partner in r.next.pairs && (r.next.pairs[partner].None? <==> s.unPaired == [])
  {
    var partner := s.pairs[user].value;
    var others := s.connectedUsers[partner];
    var told := Broadcast(others, PairDisconnected);
    if s.unPaired == [] then
      Step(s.(pairs := s.pairs[partner := None], unPaired := [partner]), told)
    else
      var first := s.unPaired[0];
      Step(s.(pairs := s.pairs[partner := Some(first)][first := Some(partner)], unPaired := s.unPaired[1..]),
           told + Broadcast(s.connectedUsers[first], FoundPair(partner)) + Broadcast(others, FoundPair(first)))
  }

  /** Case: a connection other than the last closes. */
  lemma RemoveConnKeepsInv(s: State, user: string, conn: ConnId)
    requires Inv(s) && user in s.connectedUsers && |Without(s.connectedUsers[user], conn)| > 0
    ensures Inv(s.(connectedUsers := s.connectedUsers[user := Without(s.connectedUsers[user], conn)]))
  {
    var t := s.(connectedUsers := s.connectedUsers[user := Without(s.connectedUsers[user], conn)]);
    assert ConnSetsValid(t);
    forall u, v, c | u in t.connectedUsers && v in t.connectedUsers && c in t.connectedUsers[u] && c in t.connectedUsers[v]
      ensures u == v
    {
      assert c in s.connectedUsers[u] && c in s.connectedUsers[v];
    }
  }

  /** Case: the last connection of a waiting user closes. */
  lemma DropWaitingKeepsInv(s: State, user: string)
    requires Inv(s) && user in s.unPaired
    ensures Inv(State(s.connectedUsers - {user}, s.pairs - {user}, Without(s.unPaired, user)))
  {
    var t := State(s.connectedUsers - {user}, s.pairs - {user}, Without(s.unPaired, user));
    forall u, v, c | u in t.connectedUsers && v in t.connectedUsers && c in t.connectedUsers[u] && c in t.connectedUsers[v]
      ensures u == v
    {
      assert c in s.connectedUsers[u] && c in s.connectedUsers[v];
    }
    assert QueueValid(t);
    forall u | u in t.pairs && t.pairs[u].Some?
      ensures var q := t.pairs[u].value; q != u && q in t.pairs && t.pairs[q] == Some(u)
    {
      assert s.pairs[user].None?;
    }
  }

  /** Case: the last connection of a paired user closes and the queue is empty. */
  lemma DropPairedRequeueKeepsInv(s: State, user: string, partner: string)
    requires Inv(s) && user in s.pairs && s.pairs[user] == Some(partner) && s.unPaired == []
    ensures Inv(State(s.connectedUsers - {user}, s.pairs[partner := None] - {user}, [partner]))
  {
    var t := State(s.connectedUsers - {user}, s.pairs[partner := None] - {user}, [partner]);
    assert partner in s.pairs && s.pairs[partner] == Some(user) && partner != user;
    forall u, v, c | u in t.connectedUsers && v in t.connectedUsers && c in t.connectedUsers[u] && c in t.connectedUsers[v]
      ensures u == v
    {
      assert c in s.connectedUsers[u] && c in s.connectedUsers[v];
    }
    forall u | u in t.pairs && t.pairs[u].None? ensures u in t.unPaired {
      assert u !in s.unPaired;
    }
    forall u | u in t.pairs && t.pairs[u].Some?
      ensures var q := t.pairs[u].value; q != u && q in t.pairs && t.pairs[q] == Some(u)
    {
      assert u != partner && u != user;
      var q := s.pairs[u].value;
      assert q != user && q != partner;
    }
  }

  /** Case: the last connection of a paired user closes and the partner takes the
      head of the queue. */
  lemma DropPairedRematchKeepsInv(s: State, user: string, partner: string)
    requires Inv(s) && user in s.pairs && s.pairs[user] == Some(partner) && s.unPaired != []
    ensures var first := s.unPaired[0];
      Inv(State(s.connectedUsers - {user}, s.pairs[partner := Some(first)][first := Some(partner)] - {user}, s.unPaired[1..]))
  {
    var first := s.unPaired[0];
    var t := State(s.connectedUsers - {user}, s.pairs[partner := Some(first)][first := Some(partner)] - {user}, s.unPaired[1..]);
    NoDupTail(s.unPaired);
    assert partner in s.pairs && s.pairs[partner] == Some(user) && partner != user;
    assert first in s.pairs && s.pairs[first].None? && first != user && first != partner;
    forall u, v, c | u in t.connectedUsers && v in t.connectedUsers && c in t.connectedUsers[u] && c in t.connectedUsers[v]
      ensures u == v
    {
      assert c in s.connectedUsers[u] && c in s.connectedUsers[v];
    }
    forall u | u in t.unPaired ensures u in t.pairs && t.pairs[u].None? {
      assert u in s.unPaired && u != first && u != partner && u != user;
    }
    forall u | u in t.pairs && t.pairs[u].None? ensures u in t.unPaired {
      assert u != first && u != partner && u in s.unPaired;
      assert s.unPaired == [first] + t.unPaired;
    }
    forall u | u in t.pairs && t.pairs[u].Some?
      ensures var q := t.pairs[u].value; q != u && q in t.pairs && t.pairs[q] == Some(u)
    {
      if u != first && u != partner {
        var q := s.pairs[u].value;
        assert q != user && q != partner && q != first;
      }
    }
  }

  lemma {:induction false} ForgetPreservesInv(s: State, user: string)
    requires Inv(s) && user in s.connectedUsers
    ensures Inv(Forget(s, user).next)
  {
    if user in s.unPaired {
      SpliceIsWithout(s.unPaired, user);
      DropWaitingKeepsInv(s, user);
      assert Forget(s, user).next == State(s.connectedUsers - {user}, s.pairs - {user}, Without(s.unPaired, user));
    } else if s.unPaired == [] {
      var partner := s.pairs[user].value;
      DropPairedRequeueKeepsInv(s, user, partner);
      assert Forget(s, user).next == State(s.connectedUsers - {user}, s.pairs[partner := None] - {user}, [partner]);
    } else {
      var partner := s.pairs[user].value;
      var first := s.unPaired[0];
      DropPairedRematchKeepsInv(s, user, partner);
      assert Forget(s, user).next
          == State(s.connectedUsers - {user}, s.pairs[partner := Some(first)][first := Some(partner)] - {user}, s.unPaired[1..]);
    }
  }

  /** `Leave` by cases: a connection other than the last goes alone; the last one
      makes the user forgotten. */
  lemma LeaveCases(s: State, user: string, conn: ConnId)
    requires Inv(s) && user in s.connectedUsers && conn in s.connectedUsers[user]
    ensures |Without(s.connectedUsers[user], conn)| > 0 ==>
      Leave(s, user, conn) == Step(s.(connectedUsers := s.connectedUsers[user := Without(s.connectedUsers[user], conn)]), [])
    ensures |Without(s.connectedUsers[user], conn)| == 0 ==>
      (user !in s.unPaired ==> CanRelease(s, user)) && Leave(s, user, conn) == Forget(s, user)
  {
    InvCanRelease(s, user);
  }

  lemma {:induction false} LeavePreservesInv(s: State, user: string, conn: ConnId)
    requires Inv(s) && user in s.connectedUsers && conn in s.connectedUsers[user]
    ensures Inv(Leave(s, user, conn).next)
  {
    if |Without(s.connectedUsers[user], conn)| > 0 {
      RemoveConnKeepsInv(s, user, conn);
    } else {
      ForgetPreservesInv(s, user);
    }
  }

  /** A connection other than the user's last goes alone: no event, no change to the
      pairing or the queue. */
  lemma LeaveNotLast(s: State, user: string, conn: ConnId)
    requires Inv(s) && user in s.connectedUsers && conn in s.connectedUsers[user]
    requires |s.connectedUsers[user]| > 1
    ensures var r := Leave(s, user, conn);
      && r.next.connectedUsers == s.connectedUsers[user := Without(s.connectedUsers[user], conn)]
      && r.next.pairs == s.pairs && r.next.unPaired == s.unPaired
      && r.events == []
  {
  }

  /** The last connection of a waiting user: the user leaves the queue, the others keep
      their order, and the user's entries go; nothing is emitted. */
  lemma LeaveWaiting(s: State, user: string, conn: ConnId)
    requires Inv(s) && user in s.connectedUsers && s.connectedUsers[user] == [conn]
    requires StatusOf(s, user) == Waiting
    ensures var r := Leave(s, user, conn);
      && r.next.unPaired == Without(s.unPaired, user)
      && r.next.pairs == s.pairs - {user}
      && r.next.connectedUsers == s.connectedUsers - {user}
      && r.events == []
  {
    assert Without(s.connectedUsers[user], conn) == [];
    SpliceIsWithout(s.unPaired, user);
  }

  /** The last connection of a paired user: every connection of the partner is told of
      the disconnection; then the partner takes the head of the queue as new partner,
      both sides being told, or waits at the tail of an empty queue. */
  lemma LeavePaired(s: State, user: string, conn: ConnId)
    requires Inv(s) && user in s.connectedUsers && s.connectedUsers[user] == [conn]
    requires StatusOf(s, user).Paired?
    ensures var r := Leave(s, user, conn); var partner := StatusOf(s, user).partner;
      && StatusOf(r.next, user) == Absent && r.next.connectedUsers == s.connectedUsers - {user}
      && r.events[..|s.connectedUsers[partner]|] == Broadcast(s.connectedUsers[partner], PairDisconnected)
      && (s.unPaired == [] ==>
            && StatusOf(r.next, partner) == Waiting
            && r.next.unPaired == [partner]
            && r.events == Broadcast(s.connectedUsers[partner], PairDisconnected))
      && (s.unPaired != [] ==>
            var first := s.unPaired[0];
            && StatusOf(r.next, partner) == Paired(first)
            && StatusOf(r.next, first) == Paired(partner)
            && r.next.unPaired == s.unPaired[1..]
            && r.events == Broadcast(s.connectedUsers[partner], PairDisconnected)
                           + Broadcast(s.connectedUsers[first], FoundPair(partner))
                           + Broadcast(s.connectedUsers[partner], FoundPair(first)))
  {
    assert Without(s.connectedUsers[user], conn) == [];
    assert user !in s.unPaired;
  }

  /** Disconnecting changes the standing and connections of nobody but the leaving
      user, its partner and the head of the queue. */
  lemma LeaveLeavesOthers(s: State, user: string, conn: ConnId, v: string)
    requires Inv(s) && user in s.connectedUsers && conn in s.connectedUsers[user] && v != user
    requires StatusOf(s, user).Paired? ==> v != StatusOf(s, user).partner
    requires |s.connectedUsers[user]| == 1 && StatusOf(s, user).Paired? && s.unPaired != [] ==> v != s.unPaired[0]
    ensures StatusOf(Leave(s, user, conn).next, v) == StatusOf(s, v)
    ensures v in s.connectedUsers ==> Leave(s, user, conn).next.connectedUsers[v] == s.connectedUsers[v]
  {
    if |Without(s.connectedUsers[user], conn)| == 0 && user !in s.unPaired {
      InvCanRelease(s, user);
    }
  }

  lemma {:induction false} LeaveNotifiesTruthfully(s: State, user: string, conn: ConnId)
    requires Inv(s) && user in s.connectedUsers && conn in s.connectedUsers[user]
    ensures Truthful(Leave(s, user, conn).next, Leave(s, user, conn).events)
    ensures AllLive(Leave(s, user, conn).next, Leave(s, user, conn).events)
  {
    var r := Leave(s, user, conn);
    var t := r.next;
    LeavePreservesInv(s, user, conn);
    var rest := Without(s.connectedUsers[user], conn);
    if |rest| == 0 && user !in s.unPaired {
      var partner := s.pairs[user].value;
      var others := s.connectedUsers[partner];
      assert partner in s.pairs && partner != user;
      assert partner in t.connectedUsers && t.connectedUsers[partner] == others;
      var told := Broadcast(others, PairDisconnected);
      BroadcastTruthful(t, partner, others, PairDisconnected);
      if s.unPaired != [] {
        var first := s.unPaired[0];
        var fs := s.connectedUsers[first];
        assert first in s.pairs && first != user;
        assert first in t.connectedUsers && t.connectedUsers[first] == fs;
        BroadcastTruthful(t, first, fs, FoundPair(partner));
        BroadcastTruthful(t, partner, others, FoundPair(first));
        ConcatTruthful(t, told, Broadcast(fs, FoundPair(partner)));
        ConcatTruthful(t, told + Broadcast(fs, FoundPair(partner)), Broadcast(others, FoundPair(first)));
      }
    }
  }

  // ---------------------------------------------------------------------------
  // Relay: sendMessageToAllSockets

  /** Whether the partner lookup of `sendMessageToAllSockets` succeeds. */
  datatype Delivery = Delivered | PartnerMissing

  /** The message goes to every connection of the sender, then to every connection of
      the partner. An unpaired sender has no partner: `connectedUsers.get(null)` is
      undefined and the second `forEach` throws, after the sender's own connections
      were served. */
  function Relay(s: State, sender: string, msg: ChatMessage): (r: (Delivery, seq<Event>))
    requires Inv(s) && sender in s.connectedUsers
    ensures var mine := s.connectedUsers[sender];
      |mine| <= |r.1| && r.1[..|mine|] == Broadcast(mine, Message(msg))
  {
    var mine := Broadcast(s.connectedUsers[sender], Message(msg));
    match s.pairs[sender]
    case None => (PartnerMissing, mine)
    case Some(p) => (Delivered, mine + Broadcast(s.connectedUsers[p], Message(msg)))
  }

  /** A paired sender's message reaches every connection of the sender and of the
      partner exactly once, and no other connection; an unpaired sender's message
      reaches only the sender's own connections. */
  lemma {:induction false} RelayReachesPair(s: State, sender: string, msg: ChatMessage)
    requires Inv(s) && sender in s.connectedUsers
    ensures var (outcome, es) := Relay(s, sender, msg);
      && (forall i :: 0 <= i < |es| ==> es[i].payload == Message(msg))
      && NoDup(Recipients(es))
      && (outcome == Delivered <==> StatusOf(s, sender).Paired?)
      && (forall c :: c in Recipients(es) <==>
            c in s.connectedUsers[sender]
            || (StatusOf(s, sender).Paired? && c in s.connectedUsers[StatusOf(s, sender).partner]))
  {
    var (outcome, es) := Relay(s, sender, msg);
    var mine := s.connectedUsers[sender];
    if s.pairs[sender].Some? {
      var p := s.pairs[sender].value;
      var theirs := s.connectedUsers[p];
      assert Recipients(es) == mine + theirs;
      forall i, j | 0 <= i < j < |mine + theirs| ensures (mine + theirs)[i] != (mine + theirs)[j] {
        if i < |mine| && |mine| <= j {
          assert (mine + theirs)[i] in mine && (mine + theirs)[j] in theirs;
        }
      }
    } else {
      assert Recipients(es) == mine;
    }
  }

  // ---------------------------------------------------------------------------
  // A run of the engine

  /** Scenario, first step: on an empty server, user `a` opens connection 1 and waits. */
  lemma {:induction false} ScenarioFirstJoin(a: string)
    ensures Join(Empty, a, 1) == Step(State(map[a := [1]], map[a := None], [a]), [])
  {
  }

  /** Scenario, second step: `b` opens connection 2 and is paired with the waiting `a`;
      `a`'s connection is told first. */
  lemma {:induction false} ScenarioSecondJoin(a: string, b: string)
    requires a != "" && b != "" && a != b
    ensures Inv(State(map[a := [1]], map[a := None], [a]))
    ensures Join(State(map[a := [1]], map[a := None], [a]), b, 2)
         == Step(State(map[a := [1], b := [2]], map[a := Some(b), b := Some(a)], []),
                 [Event(1, FoundPair(b)), Event(2, FoundPair(a))])
  {
    EmptyValid();
    JoinPreservesInv(Empty, a, 1);
    ScenarioFirstJoin(a);
    assert Broadcast([1], FoundPair(b)) == [Event(1, FoundPair(b))];
    assert map[a := None][b := Some(a)][a := Some(b)] == map[a := Some(b), b := Some(a)];
  }

  /** Scenario, third step: `a` closes its only connection; `b` is told and, the queue
      being empty, waits again. */
  lemma {:induction false} ScenarioLeave(a: string, b: string)
    requires a != "" && b != "" && a != b
    ensures Inv(State(map[a := [1], b := [2]], map[a := Some(b), b := Some(a)], []))
    ensures Leave(State(map[a := [1], b := [2]], map[a := Some(b), b := Some(a)], []), a, 1)
         == Step(State(map[b := [2]], map[b := None], [b]), [Event(2, PairDisconnected)])
  {
    var s1 := State(map[a := [1]], map[a := None], [a]);
    var s2 := State(map[a := [1], b := [2]], map[a := Some(b), b := Some(a)], []);
    ScenarioSecondJoin(a, b);
    JoinPreservesInv(s1, b, 2);
    assert Without([1], 1) == [];
    assert Broadcast([2], PairDisconnected) == [Event(2, PairDisconnected)];
    assert s2.connectedUsers - {a} == map[b := [2]];
    assert s2.pairs[b := None] - {a} == map[b := None];
  }

  /** Two users meet, and the one left behind waits again when the other goes. */
  lemma TwoUsersMeetAndPart(a: string, b: string)
    requires a != "" && b != "" && a != b
    ensures var s1 := Join(Empty, a, 1).next;
      && StatusOf(s1, a) == Waiting && s1.unPaired == [a]
      && Inv(s1)
      && var r2 := Join(s1, b, 2);
      && StatusOf(r2.next, a) == Paired(b) && StatusOf(r2.next, b) == Paired(a)
      && r2.next.unPaired == []
      && r2.events == [Event(1, FoundPair(b)), Event(2, FoundPair(a))]
      && Inv(r2.next)
      && var r3 := Leave(r2.next, a, 1);
      && StatusOf(r3.next, b) == Waiting && r3.next.unPaired == [b]
      && StatusOf(r3.next, a) == Absent
      && r3.events == [Event(2, PairDisconnected)]
  {
    ScenarioFirstJoin(a);
    ScenarioSecondJoin(a, b);
    ScenarioLeave(a, b);
  }
}
