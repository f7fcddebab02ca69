/** The participant registry kept by the connection handlers
    (`handle_client`): the list of connected clients, each client's name,
    its two queues, and the set of automated clients. Every update happens
    under the registry lock; each method here is one such critical section. */
module Registry {
  import opened Common
  import opened PyText

  /** A connection handle; only its identity matters. */
  datatype Conn = Conn(id: nat)

  /** What one round reads from the registry: the client list in join order,
      the names and the automated set. */
  datatype View = View(clients: seq<Conn>, names: map<Conn, string>, ais: set<Conn>)

  /** The vote lines one handler queues from the chunks `recv` returns, in
      order: each chunk stripped, up to the first empty chunk, where the peer
      closed the connection. */
  function Queued(chunks: seq<string>): seq<string>
    decreases |chunks|
  {
    if chunks == [] || chunks[0] == [] then [] else [Strip(chunks[0])] + Queued(chunks[1..])
  }

  /** One unfolding of `Queued`, for the loop in `Serve`. */
  lemma QueuedHead(chunks: seq<string>)
    requires chunks != []
    ensures Queued(chunks) == if chunks[0] == [] then [] else [Strip(chunks[0])] + Queued(chunks[1..])
  {
  }

  /** While no chunk is empty, every chunk is queued, stripped, in order. */
  lemma {:induction false} QueuedOpen(chunks: seq<string>)
    requires forall i :: 0 <= i < |chunks| ==> chunks[i] != []
    ensures |Queued(chunks)| == |chunks|
    ensures forall i :: 0 <= i < |chunks| ==> Queued(chunks)[i] == Strip(chunks[i])
    decreases |chunks|
  {
    if chunks != [] {
      QueuedOpen(chunks[1..]);
    }
  }

  /** Nothing received after the connection closed is queued. */
  lemma {:induction false} QueuedAfterClose(a: seq<string>, b: seq<string>)
    requires forall i :: 0 <= i < |a| ==> a[i] != []
    ensures Queued(a + [[]] + b) == Queued(a)
    decreases |a|
  {
    if a != [] {
      assert (a + [[]] + b)[1..] == a[1..] + [[]] + b;
      QueuedAfterClose(a[1..], b);
    } else {
      assert (a + [[]] + b)[0] == [];
    }
  }

  class Registry {
    var clients: seq<Conn>
    var names: map<Conn, string>
    var messageQueues: map<Conn, seq<string>>
    var votesQueue: map<Conn, seq<string>>
    var ais: set<Conn>

    /** Connected clients are listed once and have joined; the name and queue
        maps cover every connection that ever joined (leaving does not clear
        them), and so does the automated set. */
    ghost predicate Valid()
      reads this
    {
      NoDup(clients) &&
      (forall i :: 0 <= i < |clients| ==> clients[i] in names) &&
      messageQueues.Keys == names.Keys && votesQueue.Keys == names.Keys &&
      ais <= names.Keys
    }

    constructor ()
      ensures Valid()
      ensures clients == [] && names == map[] && messageQueues == map[] &&
              votesQueue == map[] && ais == {}
    {
      clients, names, messageQueues, votesQueue, ais := [], map[], map[], map[], {};
    }

    /** A new connection joins with the handshake text `raw`; its name is the
        stripped text. The handle is fresh: an accepted socket is a new object
        and its handler registers it once. */
    method Join(conn: Conn, raw: string)
      requires Valid() && conn !in names
      modifies this
      ensures Valid()
      ensures clients == old(clients) + [conn]
      ensures names == old(names)[conn := Strip(raw)]
      ensures messageQueues == old(messageQueues)[conn := []]
      ensures votesQueue == old(votesQueue)[conn := []]
      ensures conn in ais <==> IsAutomatedName(Strip(raw))
      ensures ais - {conn} == old(ais)
    {
      var name := Strip(raw);
      Register(conn, name, IsAutomatedName(name));
    }

    /** The registry entries of a new connection named `name`. */
    method Register(conn: Conn, name: string, automated: bool)
      requires Valid() && conn !in names
      modifies this
      ensures Valid()
      ensures clients == old(clients) + [conn]
      ensures names == old(names)[conn := name]
      ensures messageQueues == old(messageQueues)[conn := []]
      ensures votesQueue == old(votesQueue)[conn := []]
      ensures conn in ais <==> automated
      ensures ais - {conn} == old(ais)
    {
      assert conn !in clients;
      NoDupSnoc(clients, conn);
      clients, names := clients + [conn], names[conn := name];
      messageQueues, votesQueue := messageQueues[conn := []], votesQueue[conn := []];
      if automated {
        ais := ais + {conn};
      }
    }

    /** One chunk received from a joined connection. An empty chunk means
        the peer closed the connection: nothing is queued and the handler
        leaves its loop (`open` is false), which leads to `Leave`. Any other
        chunk is stripped and queued as a vote line. */
    method Forward(conn: Conn, data: string) returns (open: bool)
      requires Valid() && conn in votesQueue
      modifies this
      ensures Valid()
      ensures open <==> data != []
      ensures votesQueue == if open then old(votesQueue)[conn := old(votesQueue)[conn] + [Strip(data)]]
                            else old(votesQueue)
      ensures clients == old(clients) && names == old(names) &&
              messageQueues == old(messageQueues) && ais == old(ais)
    {
      if data == [] {
        return false;
      }
      votesQueue := votesQueue[conn := votesQueue[conn] + [Strip(data)]];
      open := true;
    }

    /** The receive loop of a joined connection's handler, fed the chunks
        `recv` returns, followed by its `finally`: the vote lines `Queued`
        names are appended to the connection's queue, and the connection
        then leaves the client list. */
    method Serve(conn: Conn, chunks: seq<string>)
      requires Valid() && conn in votesQueue
      modifies this
      ensures Valid()
      ensures votesQueue == old(votesQueue)[conn := old(votesQueue)[conn] + Queued(chunks)]
      ensures clients == RemoveFirst(old(clients), conn)
      ensures names == old(names) && messageQueues == old(messageQueues) && ais == old(ais)
    {
      var i, open := 0, true;
      while open && i < |chunks|
        invariant 0 <= i <= |chunks|
        invariant Valid() && conn in votesQueue
        invariant votesQueue == old(votesQueue)[conn := votesQueue[conn]]
        invariant votesQueue[conn] + (if open then Queued(chunks[i..]) else []) == old(votesQueue)[conn] + Queued(chunks)
        invariant clients == old(clients) && names == old(names) &&
                  messageQueues == old(messageQueues) && ais == old(ais)
        decreases |chunks| - i, open
      {
        QueuedHead(chunks[i..]);
        open := Forward(conn, chunks[i]);
        if open {
          assert chunks[i..][1..] == chunks[i + 1..];
          i := i + 1;
        }
      }
      assert open ==> chunks[i..] == [];
      assert votesQueue[conn] == old(votesQueue)[conn] + Queued(chunks);
      assert votesQueue == old(votesQueue)[conn := old(votesQueue)[conn] + Queued(chunks)];
      Leave(conn);
    }

    /** The connection handler ends: the connection leaves the client list if
        it is there. Names, queues and the automated set keep their entries. */
    method Leave(conn: Conn)
      requires Valid()
      modifies this
      ensures Valid()
      ensures clients == RemoveFirst(old(clients), conn)
      ensures conn !in clients
      ensures forall c :: c != conn ==> (c in clients <==> c in old(clients))
      ensures names == old(names) && messageQueues == old(messageQueues) &&
              votesQueue == old(votesQueue) && ais == old(ais)
    {
      var before := clients;
      RemoveFirstNoDup(before, conn);
      SetClients(RemoveFirst(before, conn));
      forall i | 0 <= i < |clients| ensures clients[i] in names {
        assert clients[i] in before;
      }
    }

    /** Replaces the client list and nothing else. */
    method SetClients(cs: seq<Conn>)
      modifies this
      ensures clients == cs
      ensures names == old(names) && messageQueues == old(messageQueues) &&
              votesQueue == old(votesQueue) && ais == old(ais)
    {
      clients := cs;
    }

    /** The registry as one round reads it. */
    method Snapshot() returns (v: View)
      requires Valid()
      ensures v == View(clients, names, ais)
      ensures NoDup(v.clients)
    {
      v := View(clients, names, ais);
    }
  }

  /** Leaving twice is the same as leaving once. */
  method LeaveTwice(r: Registry, conn: Conn)
    requires r.Valid()
    modifies r
    ensures r.Valid()
    ensures r.clients == RemoveFirst(old(r.clients), conn)
    ensures r.names == old(r.names) && r.ais == old(r.ais)
  {
    r.Leave(conn);
    r.Leave(conn);
    RemoveFirstNoDup(old(r.clients), conn);
  }
}
