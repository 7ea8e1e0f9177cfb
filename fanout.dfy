/** The live sessions of the WebSocket server (`wss.clients`) and the fan-out
    rule every send loop of the hub follows: walk the sessions in order and
    send the payload to each open one the audience admits. */
module Fanout {
  import opened JsValues

  /** One connection: its identity, the user id it is bound to (`ws.userId`,
      with the connection's own `userId`/`username` variables, which `join`
      sets together), and whether its socket is open. */
  datatype Client = Client(sid: nat, userId: Option<string>, username: Option<string>, open: bool)

  /** One frame written to one session. */
  datatype Send<P> = Send(sid: nat, payload: P)

  /** Who a send loop writes to: every open session except possibly one
      (`broadcast(data, ws)`), or the open sessions bound to one of a set of
      user ids (directed messages and signaling relays). */
  datatype Audience = Everyone(except: Option<nat>) | BoundTo(ids: set<string>)

  /** Whether a send loop writes to session `c`: only an open session is
      written to, and a broadcast with no exception writes to every open one. */
  predicate Receives(c: Client, a: Audience)
    ensures Receives(c, a) ==> c.open
    ensures a == Everyone(None) ==> (Receives(c, a) <==> c.open)
  {
    c.open &&
    match a
    case Everyone(except) => except != Some(c.sid)
    case BoundTo(ids) => c.userId.Some? && c.userId.value in ids
  }

  /** Session identities are the positions in the session list. */
  predicate Indexed(clients: seq<Client>) {
    forall i :: 0 <= i < |clients| ==> clients[i].sid == i
  }

  /** Updating one session in place, identity kept, keeps the numbering. */
  lemma IndexedUpdate(clients: seq<Client>, s: nat, c: Client)
    requires Indexed(clients) && s < |clients| && c.sid == s
    ensures Indexed(clients[s := c])
  {
  }

  /** The sends of one fan-out loop over `clients`, in iteration order. */
  function Deliver<P>(clients: seq<Client>, p: P, a: Audience): (r: seq<Send<P>>)
    ensures |r| <= |clients|
    decreases |clients|
  {
    if clients == [] then []
    else
      var last := clients[|clients| - 1];
      Deliver(clients[..|clients| - 1], p, a) + (if Receives(last, a) then [Send(last.sid, p)] else [])
  }

  /** Every frame goes to a session that exists and is open. */
  predicate AllOpen<P>(clients: seq<Client>, sends: seq<Send<P>>) {
    forall k :: 0 <= k < |sends| ==> sends[k].sid < |clients| && clients[sends[k].sid].open
  }

  /** Frames written straight back to one session (`ws.send`), in order. */
  function Reply<P>(sid: nat, ps: seq<P>): (r: seq<Send<P>>)
    ensures |r| == |ps| && forall k :: 0 <= k < |r| ==> r[k] == Send(sid, ps[k])
  {
    if ps == [] then [] else [Send(sid, ps[0])] + Reply(sid, ps[1..])
  }

  lemma ReplyAllOpen<P>(clients: seq<Client>, sid: nat, ps: seq<P>)
    requires sid < |clients| && clients[sid].open
    ensures AllOpen(clients, Reply(sid, ps))
  {
  }

  lemma AllOpenAppend<P>(clients: seq<Client>, a: seq<Send<P>>, b: seq<Send<P>>)
    requires AllOpen(clients, a) && AllOpen(clients, b)
    ensures AllOpen(clients, a + b)
  {
    forall k | 0 <= k < |a + b|
      ensures (a + b)[k].sid < |clients| && clients[(a + b)[k].sid].open
    {
      if k >= |a| {
        assert (a + b)[k] == b[k - |a|];
      }
    }
  }

  /** Whether some send goes to session `sid`. */
  predicate Reached<P>(sends: seq<Send<P>>, sid: nat) {
    exists k :: 0 <= k < |sends| && sends[k].sid == sid
  }

  /** The last session decides the last send, if any. */
  lemma DeliverLast<P>(clients: seq<Client>, p: P, a: Audience)
    requires clients != []
    ensures var n := |clients|;
      Deliver(clients, p, a) ==
        Deliver(clients[..n - 1], p, a) + (if Receives(clients[n - 1], a) then [Send(clients[n - 1].sid, p)] else [])
  {
  }

  /** Every send of a fan-out carries the payload to a session of the audience. */
  lemma {:induction false} DeliverSends<P>(clients: seq<Client>, p: P, a: Audience)
    requires Indexed(clients)
    ensures var r := Deliver(clients, p, a);
      forall k :: 0 <= k < |r| ==>
        r[k].payload == p && r[k].sid < |clients| && Receives(clients[r[k].sid], a)
  {
    if clients != [] {
      var n := |clients|;
      var prefix := clients[..n - 1];
      DeliverSends(prefix, p, a);
      DeliverLast(clients, p, a);
      var r0 := Deliver(prefix, p, a);
      var r := Deliver(clients, p, a);
      forall k | 0 <= k < |r|
        ensures r[k].payload == p && r[k].sid < n && Receives(clients[r[k].sid], a)
      {
        if k < |r0| {
          assert r[k] == r0[k];
          assert clients[r0[k].sid] == prefix[r0[k].sid];
        } else {
          assert r[k] == Send(clients[n - 1].sid, p);
        }
      }
    }
  }

  /** Every session of the audience gets a send. */
  lemma {:induction false} DeliverCovers<P>(clients: seq<Client>, p: P, a: Audience)
    requires Indexed(clients)
    ensures forall i :: 0 <= i < |clients| && Receives(clients[i], a) ==> Reached(Deliver(clients, p, a), i)
  {
    if clients != [] {
      var n := |clients|;
      var prefix := clients[..n - 1];
      DeliverCovers(prefix, p, a);
      DeliverLast(clients, p, a);
      var r0 := Deliver(prefix, p, a);
      var r := Deliver(clients, p, a);
      forall i | 0 <= i < n && Receives(clients[i], a)
        ensures Reached(r, i)
      {
        if i < n - 1 {
          assert prefix[i] == clients[i];
          var k :| 0 <= k < |r0| && r0[k].sid == i;
          assert r[k] == r0[k];
        } else {
          assert r[|r| - 1].sid == i;
        }
      }
    }
  }

  /** The sends go out in session order, so no session is written twice. */
  lemma {:induction false} DeliverOrdered<P>(clients: seq<Client>, p: P, a: Audience)
    requires Indexed(clients)
    ensures var r := Deliver(clients, p, a);
      forall j, k :: 0 <= j < k < |r| ==> r[j].sid < r[k].sid
  {
    if clients != [] {
      var n := |clients|;
      var prefix := clients[..n - 1];
      DeliverOrdered(prefix, p, a);
      DeliverSends(prefix, p, a);
      DeliverLast(clients, p, a);
      var r0 := Deliver(prefix, p, a);
      var r := Deliver(clients, p, a);
      forall j, k | 0 <= j < k < |r|
        ensures r[j].sid < r[k].sid
      {
        assert r[j] == r0[j];
        if k < |r0| {
          assert r[k] == r0[k];
        } else {
          assert r[k].sid == n - 1;
        }
      }
    }
  }

  /** A fan-out writes the payload exactly once to every session of its
      audience and to nothing else, in session order. */
  lemma DeliverReachesExactly<P>(clients: seq<Client>, p: P, a: Audience)
    requires Indexed(clients)
    ensures var r := Deliver(clients, p, a);
      && (forall k :: 0 <= k < |r| ==> r[k].payload == p)
      && (forall k :: 0 <= k < |r| ==> r[k].sid < |clients| && Receives(clients[r[k].sid], a))
      && AllOpen(clients, r)
      && (forall i :: 0 <= i < |clients| && Receives(clients[i], a) ==> Reached(r, i))
      && (forall j, k :: 0 <= j < k < |r| ==> r[j].sid < r[k].sid)
  {
    DeliverSends(clients, p, a);
    DeliverCovers(clients, p, a);
    DeliverOrdered(clients, p, a);
  }

  /** Whether session `i` receives a fan-out, for any session list. */
  lemma ReachedIff<P>(clients: seq<Client>, p: P, a: Audience, i: nat)
    requires Indexed(clients) && i < |clients|
    ensures Reached(Deliver(clients, p, a), i) <==> Receives(clients[i], a)
  {
    DeliverReachesExactly(clients, p, a);
  }

  /** A fan-out whose audience has no open member sends nothing. */
  lemma {:induction false} DeliverToNobody<P>(clients: seq<Client>, p: P, a: Audience)
    requires forall i :: 0 <= i < |clients| ==> !Receives(clients[i], a)
    ensures Deliver(clients, p, a) == []
  {
    if clients != [] {
      DeliverToNobody(clients[..|clients| - 1], p, a);
    }
  }
}
