/**
 The server's table of connected clients and the SSH-agent providers
 (internal/qtransport/server.go, handleConn): a reconnect replaces the entry of
 its client, and the late end of the replaced connection must not remove it.
 */
module ClientTable {
  import opened Bytes
  import opened Clients

  /** A connection: `serial` tells it from every other one, `agent` is the -A flag of its hello. */
  datatype Conn = Conn(serial: nat, id: ClientId, agent: bool)

  /** The two tables, and for the record all hellos in order and the connections that have ended. */
  datatype Tables = Tables(clients: map<ClientId, Conn>, providers: map<string, ClientId>, hellos: seq<Conn>, ended: set<nat>)

  const EMPTY := Tables(map[], map[], [], {})

  datatype Event = Hello(conn: Conn) | End(conn: Conn, heir: ClientId)

  function AfterHello(t: Tables, c: Conn): Tables {
    t.(clients := t.clients[c.id := c],
    providers := if c.agent then t.providers[c.id.session := c.id] else t.providers,
    hellos := t.hellos + [c])
  }

  predicate CanInherit(clients: map<ClientId, Conn>, session: string, id: ClientId) {
    id in clients && id.session == session && clients[id].agent
  }

  /** `heir` is the client that iteration over the table meets first, if any can take over. */
  function AfterEnd(t: Tables, c: Conn, heir: ClientId): Tables {
    var t' := t.(ended := t.ended + {c.serial});
    if c.id !in t.clients || t.clients[c.id] != c then t'
    else
      var clients := t.clients - {c.id};
      var s := c.id.session;
      t'.(clients := clients,
      providers := if !(c.agent && s in t.providers && t.providers[s] == c.id) then t.providers
      else if CanInherit(clients, s, heir) then t.providers[s := heir]
      else t.providers - {s})
  }

  function Next(t: Tables, e: Event): Tables {
    match e
    case Hello(c) => AfterHello(t, c)
    case End(c, heir) => AfterEnd(t, c, heir)
  }

  /** A connection says hello once and ends at most once, after its hello. */
  ghost predicate EventOk(t: Tables, e: Event) {
    match e
    case Hello(c) => forall i :: 0 <= i < |t.hellos| ==> t.hellos[i].serial != c.serial
    case End(c, heir) =>
      && c in t.hellos && c.serial !in t.ended
      && ((exists id :: CanInherit(t.clients - {c.id}, c.id.session, id)) ==>
            CanInherit(t.clients - {c.id}, c.id.session, heir))
  }

  class Server {
    var clients: map<ClientId, Conn>
    var agentProviders: map<string, ClientId>
    ghost var hellos: seq<Conn>
    ghost var ended: set<nat>

    ghost function View(): Tables
      reads this
    {
      Tables(clients, agentProviders, hellos, ended)
    }

    method Connect(c: Conn)
      modifies this
      ensures View() == Next(old(View()), Hello(c))
      ensures c.agent ==> c.id.session in agentProviders && agentProviders[c.id.session] == c.id
    {
      clients := clients[c.id := c];
      if c.agent {
        agentProviders := agentProviders[c.id.session := c.id];
      }
      hellos := hellos + [c];
    }

    method Disconnect(c: Conn) returns (ghost heir: ClientId)
      modifies this
      ensures View() == Next(old(View()), End(c, heir))
      ensures (exists id :: CanInherit(old(clients) - {c.id}, c.id.session, id)) ==>
                CanInherit(old(clients) - {c.id}, c.id.session, heir)
    {
      ended := ended + {c.serial};
      var found := FindHeir(clients - {c.id}, c.id.session);
      heir := if found.Some? then found.value else c.id;
      var stillMine := c.id in clients && clients[c.id] == c;
      if stillMine {
        clients := clients - {c.id};
        var s := c.id.session;
        if c.agent && s in agentProviders && agentProviders[s] == c.id {
          agentProviders := agentProviders - {s};
          if found.Some? {
            agentProviders := agentProviders[s := found.value];
          }
        }
      }
    }
  }

  method FindHeir(clients: map<ClientId, Conn>, session: string) returns (heir: Option<ClientId>)
    ensures heir.Some? ==> CanInherit(clients, session, heir.value)
    ensures heir.None? ==> !exists id :: CanInherit(clients, session, id)
  {
    var todo := clients.Keys;
    while todo != {}
      invariant todo <= clients.Keys
      invariant forall id :: CanInherit(clients, session, id) ==> id in todo
      decreases |todo|
    {
      var id :| id in todo;
      if id.session == session && clients[id].agent {
        return Some(id);
      }
      todo := todo - {id};
    }
    heir := None;
  }

  /** The connection of the client's latest hello. */
  function Latest(hellos: seq<Conn>, id: ClientId): Option<Conn> {
    if hellos == [] then None
    else if hellos[|hellos| - 1].id == id then Some(hellos[|hellos| - 1])
    else Latest(hellos[..|hellos| - 1], id)
  }

  lemma {:induction false} LatestIsHello(hellos: seq<Conn>, id: ClientId)
    ensures Latest(hellos, id).Some? ==> Latest(hellos, id).value in hellos && Latest(hellos, id).value.id == id
    ensures Latest(hellos, id).None? ==> forall c :: c in hellos ==> c.id != id
  {
    if hellos == [] {
    } else {
      LatestIsHello(hellos[..|hellos| - 1], id);
      assert hellos == hellos[..|hellos| - 1] + [hellos[|hellos| - 1]];
    }
  }

  ghost predicate SerialsDistinct(hellos: seq<Conn>) {
    forall i, j :: 0 <= i < j < |hellos| ==> hellos[i].serial != hellos[j].serial
  }

  /** The table maps a client to the connection of its latest hello exactly while that one has not ended. */
  ghost predicate LatestWins(t: Tables) {
    forall id :: Get(t, id) ==
                 if Latest(t.hellos, id).Some? && Latest(t.hellos, id).value.serial !in t.ended
                 then Latest(t.hellos, id) else None
  }

  function Get(t: Tables, id: ClientId): Option<Conn> {
    if id in t.clients then Some(t.clients[id]) else None
  }

  /** Nobody has ended who has not said hello. */
  ghost predicate TablesOk(t: Tables) {
    && SerialsDistinct(t.hellos) && LatestWins(t)
    && (forall n :: n in t.ended ==> exists i :: 0 <= i < |t.hellos| && t.hellos[i].serial == n)
  }

  lemma HelloStep(t: Tables, c: Conn)
    requires TablesOk(t) && EventOk(t, Hello(c))
    ensures TablesOk(AfterHello(t, c))
  {
    var t' := AfterHello(t, c);
    assert t'.hellos[..|t.hellos|] == t.hellos;
    forall n | n in t'.ended ensures exists i :: 0 <= i < |t'.hellos| && t'.hellos[i].serial == n {
      var i :| 0 <= i < |t.hellos| && t.hellos[i].serial == n;
      assert t'.hellos[i].serial == n;
    }
  }

  lemma EndStep(t: Tables, c: Conn, heir: ClientId)
    requires TablesOk(t) && EventOk(t, End(c, heir))
    ensures TablesOk(AfterEnd(t, c, heir))
  {
    var t' := AfterEnd(t, c, heir);
    forall id ensures Get(t', id) == if Latest(t.hellos, id).Some? && Latest(t.hellos, id).value.serial !in t'.ended
                                     then Latest(t.hellos, id) else None
    {
      LatestIsHello(t.hellos, id);
      var latest := Latest(t.hellos, id);
      if latest.Some? && latest.value.serial == c.serial {
        SameSerial(t.hellos, latest.value, c);
      }
      assert Get(t, id) == if latest.Some? && latest.value.serial !in t.ended then latest else None;
    }
    var i :| 0 <= i < |t.hellos| && t.hellos[i] == c;
  }

  lemma SameSerial(hellos: seq<Conn>, a: Conn, b: Conn)
    requires SerialsDistinct(hellos) && a in hellos && b in hellos && a.serial == b.serial
    ensures a == b
  {
  }

  function Run(es: seq<Event>): Tables {
    if es == [] then EMPTY else Next(Run(es[..|es| - 1]), es[|es| - 1])
  }

  ghost predicate RunOk(es: seq<Event>) {
    es == [] || (RunOk(es[..|es| - 1]) && EventOk(Run(es[..|es| - 1]), es[|es| - 1]))
  }

  /** After any order of hellos and connection ends, only the latest hello of a client counts. */
  lemma {:induction false} ReconnectSupersedes(es: seq<Event>)
    requires RunOk(es)
    ensures TablesOk(Run(es)) && LatestWins(Run(es))
  {
    if es == [] {
    } else {
      var t, e := Run(es[..|es| - 1]), es[|es| - 1];
      ReconnectSupersedes(es[..|es| - 1]);
      hide TablesOk, EventOk;
      match e
      case Hello(c) => HelloStep(t, c);
      case End(c, heir) => EndStep(t, c, heir);
    }
    hide Run;
  }

  // Agent providers.

  ghost predicate Offers(t: Tables, session: string) {
    exists id :: CanInherit(t.clients, session, id)
  }

  /** A session has a provider exactly while a connected client offers one, and the provider is such a client. */
  ghost predicate ProvidersOk(t: Tables) {
    && (forall s :: s in t.providers <==> Offers(t, s))
    && (forall s :: s in t.providers ==> CanInherit(t.clients, s, t.providers[s]))
  }

  /** The provider itself reconnects without -A. */
  predicate Strands(t: Tables, e: Event) {
    e.Hello? && !e.conn.agent && e.conn.id.session in t.providers && t.providers[e.conn.id.session] == e.conn.id
  }

  /** A step keeps the provider table exact unless it is that one. */
  lemma ProviderStep(t: Tables, e: Event)
    requires ProvidersOk(t) && EventOk(t, e)
    ensures ProvidersOk(Next(t, e)) <==> !Strands(t, e)
  {
    var t' := Next(t, e);
    if Strands(t, e) {
      assert !CanInherit(t'.clients, e.conn.id.session, e.conn.id);
    } else {
      forall s ensures s in t'.providers <==> Offers(t', s) { ProviderOf(t, e, s); }
    }
  }

  lemma ProviderOf(t: Tables, e: Event, s: string)
    requires ProvidersOk(t) && EventOk(t, e) && !Strands(t, e)
    ensures s in Next(t, e).providers <==> Offers(Next(t, e), s)
    ensures s in Next(t, e).providers ==> CanInherit(Next(t, e).clients, s, Next(t, e).providers[s])
  {
    var t' := Next(t, e);
    if s in t'.providers && CanInherit(t'.clients, s, t'.providers[s]) {
      assert Offers(t', s);
    }
    if Offers(t', s) {
      var id :| CanInherit(t'.clients, s, id);
      if CanInherit(t.clients, s, id) {
        assert Offers(t, s);
      }
    }
  }

  ghost predicate NeverStrands(es: seq<Event>) {
    es == [] || (NeverStrands(es[..|es| - 1]) && !Strands(Run(es[..|es| - 1]), es[|es| - 1]))
  }

  /** In every run in which no provider reconnects without -A, the provider table is exact. */
  lemma {:induction false} ProviderIsExact(es: seq<Event>)
    requires RunOk(es) && NeverStrands(es)
    ensures ProvidersOk(Run(es))
  {
    if es == [] {
    } else {
      ProviderIsExact(es[..|es| - 1]);
      hide ProvidersOk, EventOk, Strands, Next;
      ProviderStep(Run(es[..|es| - 1]), es[|es| - 1]);
    }
  }

  /** In particular, clients that keep their -A flag from one connection to the next never do that. */
  lemma FixedFlagsNeverStrand(t: Tables, e: Event)
    requires ProvidersOk(t) && (e.Hello? && e.conn.id in t.clients ==> t.clients[e.conn.id].agent == e.conn.agent)
    ensures !Strands(t, e)
  {
    if e.Hello? && e.conn.id.session in t.providers {
      assert CanInherit(t.clients, e.conn.id.session, t.providers[e.conn.id.session]);
    }
  }

  /** The last hello with -A provides the session's agent, and keeps doing so until it ends or another such hello comes. */
  lemma LastHelloProvides(t: Tables, e: Event, s: string)
    ensures e.Hello? && e.conn.agent && e.conn.id.session == s ==>
              s in Next(t, e).providers && Next(t, e).providers[s] == e.conn.id
    ensures s in t.providers && (e.Hello? ==> !e.conn.agent || e.conn.id.session != s)
            && (e.End? ==> e.conn.id != t.providers[s]) ==>
              s in Next(t, e).providers && Next(t, e).providers[s] == t.providers[s]
  {
  }

  /** Every client says the same about -A in all its hellos. */
  ghost predicate FixedFlags(es: seq<Event>) {
    forall i, j :: 0 <= i < j < |es| && es[i].Hello? && es[j].Hello? && es[i].conn.id == es[j].conn.id ==>
                     es[i].conn.agent == es[j].conn.agent
  }

  lemma {:induction false} HelloInRun(es: seq<Event>, c: Conn)
    requires c in Run(es).hellos
    ensures Hello(c) in es
  {
    if es == [] {
    } else {
      var init, e := es[..|es| - 1], es[|es| - 1];
      assert es == init + [e];
      if c in Run(init).hellos {
        HelloInRun(init, c);
      }
    }
  }

  /**
   In every run in which each client's flag is fixed, a session has a provider
   exactly while a connected client offers one, and the provider is such a client.
   */
  lemma {:induction false} FixedFlagsKeepProviders(es: seq<Event>)
    requires RunOk(es) && FixedFlags(es)
    ensures ProvidersOk(Run(es))
  {
    if es == [] {
      assert Run(es) == EMPTY;
    } else {
      var init, e := es[..|es| - 1], es[|es| - 1];
      FixedFlagsKeepProviders(init);
      ReconnectSupersedes(init);
      var t := Run(init);
      if e.Hello? && e.conn.id in t.clients {
        var old' := t.clients[e.conn.id];
        assert Get(t, e.conn.id) == Some(old');
        LatestIsHello(t.hellos, e.conn.id);
        HelloInRun(init, old');
        var i :| 0 <= i < |init| && init[i] == Hello(old');
        assert es[i] == init[i];
      }
      FixedFlagsNeverStrand(t, e);
      hide ProvidersOk, EventOk, Strands, Next, TablesOk;
      ProviderStep(t, e);
    }
  }

  /** A provider that reconnects without -A stays in the table although it offers no agent. */
  lemma ChangedFlagLeavesStaleProvider(id: ClientId)
    ensures var es := [Hello(Conn(0, id, true)), Hello(Conn(1, id, false))];
            && RunOk(es) && id.session in Run(es).providers && !Offers(Run(es), id.session)
  {
    var c0, c1 := Conn(0, id, true), Conn(1, id, false);
    var es := [Hello(c0), Hello(c1)];
    assert es[..1] == [Hello(c0)] && es[..1][..0] == [];
    assert Run(es[..1]) == AfterHello(EMPTY, c0);
    assert Run(es) == AfterHello(AfterHello(EMPTY, c0), c1);
    assert Run(es).clients == map[id := c1];
  }
}
