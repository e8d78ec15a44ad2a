/** The registry as the daemon keeps it: one table of ports, changed under one lock. */
module RegistryTable {
  import opened Bytes
  import opened Clients
  import opened Registry

  /** What the outside world will answer when a port is reconciled. */
  datatype Env = Env(now: int, bind: BindResult)

  function BindLns(b: BindResult): seq<Listener> {
    match b
    case Bound(lns) => lns
    case BindFailed(_) => []
  }

  /** Binds answer sensibly and never return a listener twice. */
  ghost predicate WorldOk(env: nat -> Env) {
    && (forall q :: BindOk(env(q).bind))
    && (forall q1, q2, l :: l in BindLns(env(q1).bind) && l in BindLns(env(q2).bind) ==> q1 == q2)
  }

  ghost predicate Pending(vs: seq<Visit>, q: nat) {
    forall i :: 0 <= i < |vs| ==> vs[i].q != q
  }

  /** The listeners future visits may be given have not been used yet. */
  ghost predicate Unused(env: nat -> Env, vs: seq<Visit>, acquired: set<Listener>) {
    forall q, l :: Pending(vs, q) && l in BindLns(env(q).bind) ==> l !in acquired
  }

  /** Part of event e has been processed: the visits vs. */
  ghost predicate Partway(r0: Reg, r: Reg, e: Event, vs: seq<Visit>, env: nat -> Env) {
    && RegOk(r0) && EventOk(e) && WorldOk(env)
    && r == Apply(r0, e, vs) && OncePerPort(vs) && VisitsOk(r0, e, vs)
    && Unused(env, vs, r.acquired)
  }

  lemma PartwayGet(r0: Reg, r: Reg, e: Event, vs: seq<Visit>, env: nat -> Env, q: nat)
    requires Partway(r0, r, e, vs, env) && Pending(vs, q)
    ensures Get(r, q) == Get(r0, q)
  {
    hide Reconcile, Edit, RegOk, VisitsOk, Apply;
    ApplyIsPointwise(r0, e, vs, q);
  }

  lemma OnceMore(vs: seq<Visit>, v: Visit)
    requires OncePerPort(vs) && Pending(vs, v.q)
    ensures OncePerPort(vs + [v])
    ensures forall q :: Pending(vs + [v], q) ==> Pending(vs, q) && q != v.q
  {
    var vs' := vs + [v];
    assert forall i :: 0 <= i < |vs| ==> vs'[i] == vs[i];
    forall q | Pending(vs', q) ensures Pending(vs, q) && q != v.q {
      assert vs'[|vs|] == v;
      assert forall i :: 0 <= i < |vs| ==> vs[i].q == vs'[i].q != q;
    }
  }

  lemma GainedFromBind(p: Port, now: int, bind: BindResult, pick: ClientId, l: Listener)
    requires l in Reconcile(p, now, bind, pick).acquired
    ensures l in BindLns(bind)
  {
  }

  lemma VisitGains(r: Reg, e: Event, v: Visit, l: Listener)
    ensures l in VisitPort(r, e, v).acquired ==> l in r.acquired || l in BindLns(v.bind)
  {
    hide Edit, Reconcile, BindLns;
    var edited := Edit(e, Get(r, v.q), v.q);
    if edited.Some? && l in Reconcile(edited.value, v.now, v.bind, v.pick).acquired {
      GainedFromBind(edited.value, v.now, v.bind, v.pick, l);
    }
  }

  lemma Onward(r0: Reg, r: Reg, e: Event, vs: seq<Visit>, env: nat -> Env, v: Visit)
    requires Partway(r0, r, e, vs, env) && Pending(vs, v.q)
    requires v.now == env(v.q).now && v.bind == env(v.q).bind && Edit(e, Get(r, v.q), v.q).Some?
    requires ChoiceOk(Edit(e, Get(r, v.q), v.q).value, v.now, v.bind, v.pick)
    ensures Partway(r0, VisitPort(r, e, v), e, vs + [v], env)
  {
    hide Edit, RegOk, ChoiceOk, VisitPort, Pending, OncePerPort;
    OnceMore(vs, v);
    assert (vs + [v])[..|vs|] == vs;
    assert VisitOk(r, e, v) by {
      assert forall l :: l in BindLns(v.bind) ==> l !in r.acquired;
    }
    hide VisitOk, BindLns;
    forall q, l | Pending(vs + [v], q) && l in BindLns(env(q).bind)
      ensures l !in VisitPort(r, e, v).acquired
    {
      VisitGains(r, e, v, l);
    }
  }

  // Loops over one port's registrations.

  method DropExpired(provs: map<ClientId, Prov>, now: int) returns (left: map<ClientId, Prov>)
    ensures left == Unexpired(provs, now)
  {
    left := provs;
    var todo := provs.Keys;
    while todo != {}
      invariant todo <= provs.Keys
      invariant forall id :: id in left <==> id in provs && (id in todo || !Expired(provs[id], now))
      invariant forall id :: id in left ==> left[id] == provs[id]
      decreases |todo|
    {
      var id :| id in todo;
      if !provs[id].live && now - provs[id].lostAt > DORMANT_TTL {
        left := left - {id};
      }
      todo := todo - {id};
    }
  }

  method FindDevice(provs: map<ClientId, Prov>, device: string) returns (found: bool)
    ensures found == HasDevice(provs, device)
  {
    var todo := provs.Keys;
    while todo != {}
      invariant todo <= provs.Keys
      invariant forall id :: id in provs && id !in todo ==> provs[id].device != device
      decreases |todo|
    {
      var id :| id in todo;
      if provs[id].device == device {
        return true;
      }
      todo := todo - {id};
    }
    found := false;
  }

  /** latestLive over all devices, the only way it is called. */
  method LatestLive(provs: map<ClientId, Prov>) returns (best: Option<ClientId>)
    ensures best.None? <==> !AnyLive(provs)
    ensures best.Some? ==> IsLatest(provs, best.value)
    ensures forall id :: id in provs && provs[id].live ==>
                           best.Some? && best.value in provs && provs[id].helloAt <= provs[best.value].helloAt
  {
    best := None;
    var todo := provs.Keys;
    while todo != {}
      invariant todo <= provs.Keys
      invariant best.Some? ==> best.value in provs && provs[best.value].live
      invariant forall id :: id in provs && id !in todo && provs[id].live ==>
                               best.Some? && provs[id].helloAt <= provs[best.value].helloAt
      decreases |todo|
    {
      var id :| id in todo;
      if provs[id].live && (best.None? || provs[id].helloAt > provs[best.value].helloAt) {
        best := Some(id);
      }
      todo := todo - {id};
    }
  }

  /** A live registration whose client has not been told its present state. */
  predicate Uninformed(owner: string, bindErr: string, pr: Prov) {
    pr.live && pr.notice != StateKey(owner, bindErr, pr)
  }

  method NotifyLive(owner: string, bindErr: string, provs: map<ClientId, Prov>)
    returns (told: map<ClientId, Prov>, notices: set<ClientId>)
    ensures told == Notified(owner, bindErr, provs)
    ensures notices == set id | id in provs && Uninformed(owner, bindErr, provs[id])
  {
    told, notices := provs, {};
    ghost var want := Notified(owner, bindErr, provs);
    var todo := provs.Keys;
    while todo != {}
      invariant todo <= provs.Keys && told.Keys == provs.Keys == want.Keys
      invariant forall id :: id in provs ==> told[id] == if id in todo then provs[id] else want[id]
      invariant forall id :: id in notices <==> id in provs && id !in todo && Uninformed(owner, bindErr, provs[id])
      decreases |todo|
    {
      var id :| id in todo;
      var pr := provs[id];
      if Uninformed(owner, bindErr, pr) {
        told := told[id := pr.(notice := StateKey(owner, bindErr, pr))];
        notices := notices + {id};
      }
      assert told[id] == want[id];
      hide Notified, Uninformed, StateKey;
      todo := todo - {id};
    }
  }

  class Table {
    var ports: map<nat, Port>
    ghost var acquired: set<Listener>
    ghost var closed: multiset<Listener>

    constructor ()
      ensures View() == EMPTY
    {
      ports, acquired, closed := map[], {}, multiset{};
    }

    ghost function View(): Reg
      reads this
    {
      Reg(ports, acquired, closed)
    }

    /** reconcileLocked on a port whose registrations have just been edited to p. */
    method ReconcileLocked(q: nat, p: Port, env: Env) returns (ghost pick: ClientId)
      modifies this
      ensures View() == Settle(old(View()), q, Reconcile(p, env.now, env.bind, pick))
      ensures AnyLive(Unexpired(p.provs, env.now)) ==> IsLatest(Unexpired(p.provs, env.now), pick)
    {
      var provs := DropExpired(p.provs, env.now);
      var owner, lns, bindErr := p.owner, p.lns, p.bindErr;
      ghost var released: seq<Listener>, gained: seq<Listener> := [], [];
      if owner != "" {
        var left := FindDevice(provs, owner);
        if !left {
          released := lns;
          owner, lns := "", [];
        }
      }
      ghost var s := Settled(p, env.now);
      assert s == p.(provs := provs, owner := owner, lns := lns);
      var cand := LatestLive(provs);
      pick := if cand.Some? then cand.value else ClientId("", 0);
      if owner == "" && cand.Some? {
        match env.bind {
          case Bound(fresh') =>
            gained := if fresh' == lns then [] else fresh';
            owner, lns, bindErr := provs[cand.value].device, fresh', "";
          case BindFailed(err) =>
            bindErr := err;
        }
      }
      ghost var b := Rebound(s, env.bind, pick);
      assert b == s.(owner := owner, lns := lns, bindErr := bindErr);
      var told, notices := NotifyLive(owner, bindErr, provs);
      acquired := acquired + (set l | l in gained);
      if provs == map[] {
        closed := closed + multiset(released + lns);
        ports := ports - {q};
      } else {
        closed := closed + multiset(released);
        ports := ports[q := Port(owner, lns, bindErr, told, env.now)];
      }
    }

    /** Edit port q to p and reconcile it, as the next visit of event e. */
    method Handle(ghost r0: Reg, ghost e: Event, ghost vs: seq<Visit>, q: nat, p: Port, env: nat -> Env)
      returns (ghost vs': seq<Visit>)
      requires Partway(r0, View(), e, vs, env) && Pending(vs, q)
      requires Edit(e, Get(View(), q), q) == Some(p)
      modifies this
      ensures Partway(r0, View(), e, vs', env)
      ensures |vs'| == |vs| + 1 && vs'[..|vs|] == vs && vs'[|vs|].q == q
    {
      hide *;
      ghost var r := View();
      ghost var pick := ReconcileLocked(q, p, env(q));
      ghost var v := Visit(q, env(q).now, env(q).bind, pick);
      vs' := vs + [v];
      HandleOk(r0, r, e, vs, env, v, p);
    }

    /** tick: reconcile every port. */
    method TickAll(env: nat -> Env) returns (ghost vs: seq<Visit>)
      requires RegOk(View()) && WorldOk(env) && Unused(env, [], acquired)
      modifies this
      ensures TurnOk(old(View()), Tick, vs) && View() == Apply(old(View()), Tick, vs) && RegOk(View())
    {
      hide Partway, Edit, Reconcile, RegOk, WorldOk, Unused, Apply, VisitsOk, TurnOk, Pending, AllIn, Wanted;
      ghost var r0 := View();
      vs := [];
      Begin(r0, Tick, env);
      var todo := ports.Keys;
      AllPending(todo);
      while todo != {}
        invariant Partway(r0, View(), Tick, vs, env) && todo <= r0.ports.Keys && AllIn(vs, todo)
        invariant forall q :: q in r0.ports && q !in todo ==> !Pending(vs, q)
        decreases |todo|
      {
        var q :| q in todo;
        InTodo(vs, todo, q);
        PartwayGet(r0, View(), Tick, vs, env, q);
        EditTick(View(), q);
        ghost var vs1 := Handle(r0, Tick, vs, q, ports[q], env);
        StillPending(vs, vs1, todo, q);
        vs := vs1;
        todo := todo - {q};
      }
      forall q | Edit(Tick, Get(r0, q), q).Some? ensures !Pending(vs, q) { TickTouches(r0, q); }
      Finish(r0, View(), Tick, vs, env);
    }

    /** gone: a connection ended; the owner's side goes dormant unless the client left on purpose. */
    method GoneClient(id: ClientId, explicitly: bool, now: int, env: nat -> Env) returns (ghost vs: seq<Visit>)
      requires RegOk(View()) && WorldOk(env) && Unused(env, [], acquired)
      modifies this
      ensures var e := Gone(id, explicitly, now);
              TurnOk(old(View()), e, vs) && View() == Apply(old(View()), e, vs) && RegOk(View())
    {
      hide Partway, Edit, Reconcile, RegOk, WorldOk, Unused, Apply, VisitsOk, TurnOk, Pending, AllIn, Wanted;
      ghost var r0, e := View(), Gone(id, explicitly, now);
      vs := [];
      Begin(r0, e, env);
      var todo := ports.Keys;
      AllPending(todo);
      while todo != {}
        invariant Partway(r0, View(), e, vs, env) && todo <= r0.ports.Keys && AllIn(vs, todo)
        invariant forall q :: q in r0.ports && q !in todo && id in r0.ports[q].provs ==> !Pending(vs, q)
        decreases |todo|
      {
        var q :| q in todo;
        InTodo(vs, todo, q);
        PartwayGet(r0, View(), e, vs, env, q);
        SamePort(r0, View(), q);
        var p := ports[q];
        if id in p.provs {
          var pr := p.provs[id];
          var provs := p.provs - {id};
          if !explicitly && pr.device == p.owner {
            provs := p.provs[id := pr.(live := false, lostAt := now)];
          }
          EditGone(View(), e, q);
          ghost var vs1 := Handle(r0, e, vs, q, p.(provs := provs), env);
          StillPending(vs, vs1, todo, q);
          vs := vs1;
        } else {
          FewerPending(vs, todo, q);
        }
        todo := todo - {q};
      }
      forall q | Edit(e, Get(r0, q), q).Some? ensures !Pending(vs, q) { GoneTouches(r0, e, q); }
      Finish(r0, View(), e, vs, env);
    }

    /** dropSession: the session's clients lose their registrations. */
    method DropSessionClients(session: string, env: nat -> Env) returns (ghost vs: seq<Visit>)
      requires RegOk(View()) && WorldOk(env) && Unused(env, [], acquired)
      modifies this
      ensures var e := DropSession(session);
              TurnOk(old(View()), e, vs) && View() == Apply(old(View()), e, vs) && RegOk(View())
    {
      hide Partway, Edit, Reconcile, RegOk, WorldOk, Unused, Apply, VisitsOk, TurnOk, Pending, AllIn, Wanted;
      ghost var r0, e := View(), DropSession(session);
      vs := [];
      Begin(r0, e, env);
      var todo := ports.Keys;
      AllPending(todo);
      while todo != {}
        invariant Partway(r0, View(), e, vs, env) && todo <= r0.ports.Keys && AllIn(vs, todo)
        invariant forall q :: q in r0.ports && q !in todo && Edit(e, Get(r0, q), q).Some? ==> !Pending(vs, q)
        decreases |todo|
      {
        var q :| q in todo;
        InTodo(vs, todo, q);
        PartwayGet(r0, View(), e, vs, env, q);
        SamePort(r0, View(), q);
        var provs, changed := WithoutSession(ports[q].provs, session);
        EditDrop(View(), session, q);
        if changed {
          ghost var vs1 := Handle(r0, e, vs, q, ports[q].(provs := provs), env);
          StillPending(vs, vs1, todo, q);
          vs := vs1;
        } else {
          FewerPending(vs, todo, q);
        }
        todo := todo - {q};
      }
      forall q | Edit(e, Get(r0, q), q).Some? ensures !Pending(vs, q) { DropTouches(r0, session, q); }
      Finish(r0, View(), e, vs, env);
    }

    /** hello, first loop: registrations that are no longer asked for go. */
    method HelloRemoves(ghost r0: Reg, e: Event, want: set<nat>, env: nat -> Env) returns (ghost vs: seq<Visit>)
      requires e.Hello? && want == Wanted(e.ports) && r0 == View() && Partway(r0, r0, e, [], env)
      modifies this
      ensures Partway(r0, View(), e, vs, env) && AllIn(vs, want)
      ensures forall q :: q in r0.ports && q !in want && e.id in r0.ports[q].provs ==> !Pending(vs, q)
    {
      hide Partway, Edit, Reconcile, RegOk, WorldOk, Unused, Apply, VisitsOk, TurnOk, Pending, AllIn, Wanted;
      vs := [];
      var todo := ports.Keys;
      AllPending(todo);
      AllPending(want);
      while todo != {}
        invariant Partway(r0, View(), e, vs, env) && todo <= r0.ports.Keys && AllIn(vs, todo) && AllIn(vs, want)
        invariant forall q :: q in r0.ports && q !in todo && q !in want && e.id in r0.ports[q].provs ==> !Pending(vs, q)
        decreases |todo|
      {
        var q :| q in todo;
        InTodo(vs, todo, q);
        PartwayGet(r0, View(), e, vs, env, q);
        SamePort(r0, View(), q);
        if e.id in ports[q].provs && q !in want {
          EditHello(View(), e, q);
          ghost var vs1 := Handle(r0, e, vs, q, ports[q].(provs := ports[q].provs - {e.id}), env);
          StillPending(vs, vs1, todo, q);
          StillPending(vs, vs1, want, q);
          assert want - {q} == want;
          vs := vs1;
        } else {
          FewerPending(vs, todo, q);
        }
        todo := todo - {q};
      }
    }

    /** hello, second loop: the ports asked for are registered or renewed. */
    method HelloAdds(ghost r0: Reg, e: Event, want: set<nat>, env: nat -> Env, ghost vs0: seq<Visit>)
      returns (ghost vs: seq<Visit>)
      requires e.Hello? && want == Wanted(e.ports) && Partway(r0, View(), e, vs0, env) && AllIn(vs0, want)
      modifies this
      ensures Partway(r0, View(), e, vs, env)
      ensures forall q :: q in want || !Pending(vs0, q) ==> !Pending(vs, q)
    {
      hide Partway, Edit, Reconcile, RegOk, WorldOk, Unused, Apply, VisitsOk, TurnOk, Pending, AllIn, Wanted;
      vs := vs0;
      var rest := want;
      while rest != {}
        invariant Partway(r0, View(), e, vs, env) && rest <= want && AllIn(vs, rest)
        invariant forall q :: (q in want && q !in rest) || !Pending(vs0, q) ==> !Pending(vs, q)
        decreases |rest|
      {
        var q :| q in rest;
        InTodo(vs, rest, q);
        var p := if q in ports then ports[q] else UNREGISTERED;
        EditHello(View(), e, q);
        ghost var vs1 := Handle(r0, e, vs, q, p.(provs := p.provs[e.id := Prov(e.device, true, e.now, 0, "")]), env);
        StillPending(vs, vs1, rest, q);
        vs := vs1;
        rest := rest - {q};
      }
    }

    /** hello: what a client asks for on connecting or reconnecting. */
    method HelloClient(id: ClientId, device: string, asked: seq<nat>, now: int, env: nat -> Env)
      returns (ghost vs: seq<Visit>)
      requires RegOk(View()) && WorldOk(env) && Unused(env, [], acquired) && device != ""
      modifies this
      ensures var e := Hello(id, device, asked, now);
              TurnOk(old(View()), e, vs) && View() == Apply(old(View()), e, vs) && RegOk(View())
    {
      hide Partway, Edit, Reconcile, RegOk, WorldOk, Unused, Apply, VisitsOk, TurnOk, Pending, AllIn, Wanted;
      var want := ReadWanted(asked);
      var e := Hello(id, device, asked, now);
      ghost var r0 := View();
      Begin(r0, e, env);
      ghost var vs1 := HelloRemoves(r0, e, want, env);
      vs := HelloAdds(r0, e, want, env, vs1);
      forall q | Edit(e, Get(r0, q), q).Some? ensures !Pending(vs, q) { HelloTouches(r0, e, q); }
      Finish(r0, View(), e, vs, env);
    }

    /** closeAll: every listener still held is closed. */
    method CloseAll()
      requires RegOk(View())
      modifies this
      ensures ports == map[] && acquired == old(acquired)
      ensures forall l :: l in acquired ==> closed[l] == 1
    {
      hide PortOk;
      while ports != map[]
        invariant RegOk(View()) && acquired == old(acquired)
        decreases |ports.Keys|
      {
        var q :| q in ports;
        ghost var r, o := View(), Outcome(None, [], ports[q].lns);
        CloseOk(r, q);
        closed := closed + multiset(ports[q].lns);
        assert ports.Keys == {q} + (ports - {q}).Keys;
        ports := ports - {q};
        assert acquired + (set l | l in o.acquired) == acquired;
      }
      NothingHeld(View());
    }

    /** targets: the live clients of the owning device, the latest hello first. */
    method Targets(q: nat) returns (ids: seq<ClientId>)
      requires q in ports
      ensures var p := ports[q];
              && (forall id :: id in ids <==> id in p.provs && p.provs[id].live && p.provs[id].device == p.owner)
              && (forall i, j :: 0 <= i < j < |ids| ==> ids[i] != ids[j] && p.provs[ids[i]].helloAt >= p.provs[ids[j]].helloAt)
    {
      var all := Relays(ports[q]);
      var left := all;
      ids := [];
      while left != map[]
        invariant Sorting(all, left, ids)
        decreases |left.Keys|
      {
        ghost var some :| some in left;
        assert left[some].live;
        var best := LatestLive(left);
        assert left.Keys == {best.value} + (left - {best.value}).Keys;
        TakeLatest(all, left, ids, best.value);
        ids := ids + [best.value];
        left := left - {best.value};
      }
    }
  }

  /** The registrations a connection to the port may be relayed to. */
  function Relays(p: Port): map<ClientId, Prov> {
    map id | id in p.provs && p.provs[id].live && p.provs[id].device == p.owner :: p.provs[id]
  }

  /** No client twice, and none before one with a later hello. */
  ghost predicate LatestFirst(all: map<ClientId, Prov>, ids: seq<ClientId>) {
    && (forall i :: 0 <= i < |ids| ==> ids[i] in all)
    && (forall i, j :: 0 <= i < j < |ids| ==> ids[i] != ids[j] && all[ids[i]].helloAt >= all[ids[j]].helloAt)
  }

  ghost predicate Sorting(all: map<ClientId, Prov>, left: map<ClientId, Prov>, ids: seq<ClientId>) {
    && (forall id :: id in all ==> all[id].live)
    && (forall id :: id in left ==> id in all && left[id] == all[id])
    && (forall id :: id in all <==> id in left || id in ids)
    && (forall id :: id in ids ==> id !in left)
    && LatestFirst(all, ids)
    && (forall i, id :: 0 <= i < |ids| && id in left ==> all[ids[i]].helloAt >= left[id].helloAt)
  }

  lemma TakeLatest(all: map<ClientId, Prov>, left: map<ClientId, Prov>, ids: seq<ClientId>, best: ClientId)
    requires Sorting(all, left, ids) && IsLatest(left, best)
    ensures Sorting(all, left - {best}, ids + [best])
  {
    var ids' := ids + [best];
    assert forall i :: 0 <= i < |ids| ==> ids'[i] == ids[i] && ids[i] in ids;
    assert LatestFirst(all, ids');
  }

  // The steps of the loops above.

  ghost predicate AllIn(vs: seq<Visit>, todo: set<nat>) {
    forall q :: q in todo ==> Pending(vs, q)
  }

  lemma AllPending(todo: set<nat>)
    ensures AllIn([], todo)
  {
  }

  lemma InTodo(vs: seq<Visit>, todo: set<nat>, q: nat)
    requires AllIn(vs, todo) && q in todo
    ensures Pending(vs, q)
  {
  }

  lemma FewerPending(vs: seq<Visit>, todo: set<nat>, q: nat)
    requires AllIn(vs, todo)
    ensures AllIn(vs, todo - {q})
  {
  }

  lemma StillPending(vs: seq<Visit>, vs': seq<Visit>, todo: set<nat>, q: nat)
    requires AllIn(vs, todo) && |vs'| == |vs| + 1 && vs'[..|vs|] == vs && vs'[|vs|].q == q
    ensures AllIn(vs', todo - {q}) && !Pending(vs', q)
    ensures forall x :: !Pending(vs, x) ==> !Pending(vs', x)
  {
    assert forall i :: 0 <= i < |vs| ==> vs'[i] == vs'[..|vs|][i];
    forall x | !Pending(vs, x) ensures !Pending(vs', x) {
      var i :| 0 <= i < |vs| && vs[i].q == x;
      assert vs'[i].q == x;
    }
  }

  lemma Begin(r0: Reg, e: Event, env: nat -> Env)
    requires RegOk(r0) && EventOk(e) && WorldOk(env) && Unused(env, [], r0.acquired)
    ensures Partway(r0, r0, e, [], env)
  {
    hide RegOk, WorldOk, Unused, EventOk;
  }

  lemma Finish(r0: Reg, r: Reg, e: Event, vs: seq<Visit>, env: nat -> Env)
    requires Partway(r0, r, e, vs, env)
    requires forall q :: Edit(e, Get(r0, q), q).Some? ==> !Pending(vs, q)
    ensures TurnOk(r0, e, vs) && r == Apply(r0, e, vs) && RegOk(r)
  {
    hide Edit, RegOk, WorldOk, Unused, EventOk, Apply, VisitsOk, OncePerPort;
    ApplyKeeps(r0, e, vs);
  }

  lemma SamePort(r0: Reg, r: Reg, q: nat)
    requires Get(r, q) == Get(r0, q)
    ensures q in r.ports <==> q in r0.ports
    ensures q in r.ports ==> r.ports[q] == r0.ports[q]
  {
  }

  lemma EditTick(r: Reg, q: nat)
    ensures Edit(Tick, Get(r, q), q) == Get(r, q)
    ensures q in r.ports ==> Get(r, q) == Some(r.ports[q])
  {
  }

  lemma TickTouches(r0: Reg, q: nat)
    requires Edit(Tick, Get(r0, q), q).Some?
    ensures q in r0.ports
  {
  }

  lemma EditGone(r: Reg, e: Event, q: nat)
    requires e.Gone? && q in r.ports && e.id in r.ports[q].provs
    ensures var p := r.ports[q];
            Edit(e, Get(r, q), q) == Some(p.(provs :=
              if !e.explicitly && p.provs[e.id].device == p.owner
              then p.provs[e.id := p.provs[e.id].(live := false, lostAt := e.now)] else p.provs - {e.id}))
  {
  }

  lemma GoneTouches(r0: Reg, e: Event, q: nat)
    requires e.Gone? && Edit(e, Get(r0, q), q).Some?
    ensures q in r0.ports && e.id in r0.ports[q].provs
  {
  }

  method WithoutSession(provs: map<ClientId, Prov>, session: string) returns (left: map<ClientId, Prov>, changed: bool)
    ensures left == map id | id in provs && id.session != session :: provs[id]
    ensures changed == exists id :: id in provs && id.session == session
  {
    left, changed := provs, false;
    var todo := provs.Keys;
    while todo != {}
      invariant todo <= provs.Keys
      invariant forall id :: id in left <==> id in provs && (id in todo || id.session != session)
      invariant forall id :: id in left ==> left[id] == provs[id]
      invariant changed <==> exists id :: id in provs && id !in todo && id.session == session
      decreases |todo|
    {
      var id :| id in todo;
      if id.session == session {
        left := left - {id};
        changed := true;
      }
      todo := todo - {id};
    }
  }

  lemma EditDrop(r: Reg, session: string, q: nat)
    requires q in r.ports
    ensures var p := r.ports[q];
            Edit(DropSession(session), Get(r, q), q) ==
            if exists id :: id in p.provs && id.session == session
            then Some(p.(provs := map id | id in p.provs && id.session != session :: p.provs[id])) else None
  {
  }

  lemma DropTouches(r0: Reg, session: string, q: nat)
    requires Edit(DropSession(session), Get(r0, q), q).Some?
    ensures q in r0.ports
  {
  }

  method ReadWanted(asked: seq<nat>) returns (want: set<nat>)
    ensures want == Wanted(asked)
  {
    var ports := if |asked| > MAX_PORTS then asked[..MAX_PORTS] else asked;
    want := {};
    for i := 0 to |ports|
      invariant want == set k | 0 <= k < i && ports[k] != 0 :: ports[k]
    {
      if ports[i] != 0 {
        want := want + {ports[i]};
      }
    }
  }

  lemma EditHello(r: Reg, e: Event, q: nat)
    requires e.Hello?
    ensures var p := if q in r.ports then r.ports[q] else UNREGISTERED;
            q in Wanted(e.ports) ==>
              Edit(e, Get(r, q), q) == Some(p.(provs := p.provs[e.id := Prov(e.device, true, e.now, 0, "")]))
    ensures q !in Wanted(e.ports) && q in r.ports && e.id in r.ports[q].provs ==>
              Edit(e, Get(r, q), q) == Some(r.ports[q].(provs := r.ports[q].provs - {e.id}))
  {
  }

  lemma HelloTouches(r0: Reg, e: Event, q: nat)
    requires e.Hello? && Edit(e, Get(r0, q), q).Some?
    ensures q in Wanted(e.ports) || (q in r0.ports && e.id in r0.ports[q].provs)
  {
  }

  lemma CloseOk(r: Reg, q: nat)
    requires RegOk(r) && q in r.ports
    ensures RegOk(Settle(r, q, Outcome(None, [], r.ports[q].lns)))
  {
    var o := Outcome(None, [], r.ports[q].lns);
    assert PortOk(r.ports[q]);
    EditedDistinct(r.ports[q]);
    hide PortOk, Distinct, ListenersOk, Moves;
    SettleMoves(r, q, o);
    MovesKeepListeners(r, q, [], [], o.closed, Settle(r, q, o));
  }

  lemma NothingHeld(r: Reg)
    requires RegOk(r) && r.ports == map[]
    ensures forall l :: l in r.acquired ==> r.closed[l] == 1
  {
    assert forall q :: LnsAt(r, q) == [];
  }

  lemma HandleOk(r0: Reg, r: Reg, e: Event, vs: seq<Visit>, env: nat -> Env, v: Visit, p: Port)
    requires Partway(r0, r, e, vs, env) && Pending(vs, v.q) && v.now == env(v.q).now && v.bind == env(v.q).bind
    requires Edit(e, Get(r, v.q), v.q) == Some(p)
    requires AnyLive(Unexpired(p.provs, v.now)) ==> IsLatest(Unexpired(p.provs, v.now), v.pick)
    ensures Settle(r, v.q, Reconcile(p, v.now, v.bind, v.pick)) == VisitPort(r, e, v)
    ensures Partway(r0, VisitPort(r, e, v), e, vs + [v], env)
    ensures (vs + [v])[..|vs|] == vs
  {
    hide Edit, Reconcile, Settle, AnyLive, IsLatest, Unexpired;
    Onward(r0, r, e, vs, env, v);
  }
}
