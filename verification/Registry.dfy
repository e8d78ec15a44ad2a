/**
 The -R port registry (internal/session/rforward.go): which device's listener
 a port carries, who is live, dormant or waiting on it, and how one reconcile
 step follows every event. Bind results, clock readings and the order in which
 map iteration meets equally recent clients are inputs of a step.
 */
module Registry {
  import opened Bytes
  import opened Clients

  const DORMANT_TTL: int := 24 * 3600 * 1_000_000_000
  const MAX_PORTS: nat := 16

  type Listener = nat

  /** One client's registration on one port; `live` is false while it is dormant. */
  datatype Prov = Prov(device: string, live: bool, helloAt: int, lostAt: int, notice: string)

  /** A listen port. The owner is empty while it is not bound; `checkedAt` is the time of its last reconcile. */
  datatype Port = Port(owner: string, lns: seq<Listener>, bindErr: string, provs: map<ClientId, Prov>, checkedAt: int)

  datatype BindResult = Bound(lns: seq<Listener>) | BindFailed(err: string)

  datatype Event =
    | Hello(id: ClientId, device: string, ports: seq<nat>, now: int)
    | Gone(id: ClientId, explicitly: bool, now: int)
    | DropSession(session: string)
    | Tick

  /** What reconciling one port makes of it. */
  datatype Outcome = Outcome(port: Option<Port>, acquired: seq<Listener>, closed: seq<Listener>)

  // The parts of reconcileLocked.

  predicate Expired(pr: Prov, now: int) { !pr.live && now - pr.lostAt > DORMANT_TTL }

  function Unexpired(provs: map<ClientId, Prov>, now: int): map<ClientId, Prov> {
    map id | id in provs && !Expired(provs[id], now) :: provs[id]
  }

  ghost predicate HasDevice(provs: map<ClientId, Prov>, device: string) {
    exists id :: id in provs && provs[id].device == device
  }

  ghost predicate AnyLive(provs: map<ClientId, Prov>) {
    exists id :: id in provs && provs[id].live
  }

  /** id is live and no live client said hello after it. */
  ghost predicate IsLatest(provs: map<ClientId, Prov>, id: ClientId) {
    && id in provs && provs[id].live
    && forall other :: other in provs && provs[other].live ==> provs[other].helloAt <= provs[id].helloAt
  }

  /** The key of the notice a client is sent for the state it sees. */
  function StateKey(owner: string, bindErr: string, pr: Prov): string {
    if owner == pr.device then "active"
    else if owner != "" then "busy"
    else if bindErr != "" then "bindfail:" + bindErr
    else ""
  }

  function Notified(owner: string, bindErr: string, provs: map<ClientId, Prov>): map<ClientId, Prov> {
    map id | id in provs ::
      if provs[id].live then provs[id].(notice := StateKey(owner, bindErr, provs[id])) else provs[id]
  }

  /** Expire the dormant, and release the listeners if nobody of the owning device is left. */
  ghost function Settled(p: Port, now: int): Port {
    var provs := Unexpired(p.provs, now);
    if p.owner != "" && !HasDevice(provs, p.owner) then p.(provs := provs, owner := "", lns := [])
    else p.(provs := provs)
  }

  /** Bind an unowned port for the device of the chosen client. */
  ghost function Rebound(p: Port, bind: BindResult, pick: ClientId): Port {
    if p.owner != "" || !IsLatest(p.provs, pick) then p
    else
      match bind
      case Bound(lns) => p.(owner := p.provs[pick].device, lns := lns, bindErr := "")
      case BindFailed(err) => p.(bindErr := err)
  }

  ghost function Reconcile(p: Port, now: int, bind: BindResult, pick: ClientId): Outcome {
    var s := Settled(p, now);
    var b := Rebound(s, bind, pick);
    var released := if s.lns == p.lns then [] else p.lns;
    var acquired := if b.lns == s.lns then [] else b.lns;
    if b.provs == map[] then Outcome(None, acquired, released + b.lns)
    else Outcome(Some(b.(provs := Notified(b.owner, b.bindErr, b.provs), checkedAt := now)), acquired, released)
  }

  // Events.

  /** The ports a hello asks for: the first sixteen, without zero. */
  function Wanted(ports: seq<nat>): set<nat> {
    set i | 0 <= i < |ports| && i < MAX_PORTS && ports[i] != 0 :: ports[i]
  }

  const UNREGISTERED := Port("", [], "", map[], 0)

  /** What an event does to one port before it is reconciled; None leaves the port alone. */
  ghost function Edit(e: Event, p: Option<Port>, q: nat): Option<Port> {
    match e
    case Hello(id, device, ports, now) =>
      if q in Wanted(ports) then
        var base := if p.Some? then p.value else UNREGISTERED;
        Some(base.(provs := base.provs[id := Prov(device, true, now, 0, "")]))
      else if p.Some? && id in p.value.provs then Some(p.value.(provs := p.value.provs - {id}))
      else None
    case Gone(id, explicitly, now) =>
      if p.None? || id !in p.value.provs then None
      else
        var pr := p.value.provs[id];
        if explicitly || pr.device != p.value.owner then Some(p.value.(provs := p.value.provs - {id}))
        else Some(p.value.(provs := p.value.provs[id := pr.(live := false, lostAt := now)]))
    case DropSession(session) =>
      if p.Some? && exists id :: id in p.value.provs && id.session == session
      then Some(p.value.(provs := map id | id in p.value.provs && id.session != session :: p.value.provs[id]))
      else None
    case Tick => p
  }

  /** The registered ports and, for the record, every listener ever opened and every close. */
  datatype Reg = Reg(ports: map<nat, Port>, acquired: set<Listener>, closed: multiset<Listener>)

  const EMPTY := Reg(map[], {}, multiset{})

  /** The environment's part in reconciling port q. */
  datatype Visit = Visit(q: nat, now: int, bind: BindResult, pick: ClientId)

  function Get(r: Reg, q: nat): Option<Port> { if q in r.ports then Some(r.ports[q]) else None }

  ghost function Settle(r: Reg, q: nat, o: Outcome): Reg {
    Reg(if o.port.Some? then r.ports[q := o.port.value] else r.ports - {q},
        r.acquired + (set l | l in o.acquired), r.closed + multiset(o.closed))
  }

  ghost function VisitPort(r: Reg, e: Event, v: Visit): Reg {
    var edited := Edit(e, Get(r, v.q), v.q);
    if edited.None? then r else Settle(r, v.q, Reconcile(edited.value, v.now, v.bind, v.pick))
  }

  ghost function Apply(r: Reg, e: Event, vs: seq<Visit>): Reg {
    if vs == [] then r else VisitPort(Apply(r, e, vs[..|vs| - 1]), e, vs[|vs| - 1])
  }

  // What every port satisfies between events.

  /** What holds of a port after an event's edit, before it is reconciled. */
  ghost predicate Editable(p: Port) {
    && (p.owner != "" <==> p.lns != [])
    && (p.owner != "" ==> p.bindErr == "")
    && (forall id :: id in p.provs ==> p.provs[id].device != "")
    && (forall id :: id in p.provs && !p.provs[id].live ==> p.provs[id].device == p.owner)
    && Distinct(p.lns)
  }

  /**
   A registered port has a registration; it has an owner iff it has listeners
   iff a registration of the owner's device is left; dormant registrations are
   the owner's and unexpired when last checked; unowned means the last bind
   failed; and every live client was told the state it is in.
   */
  ghost predicate PortOk(p: Port) {
    && Editable(p)
    && p.provs != map[]
    && (p.owner != "" <==> HasDevice(p.provs, p.owner))
    && (p.owner == "" ==> p.bindErr != "")
    && (forall id :: id in p.provs ==> !Expired(p.provs[id], p.checkedAt))
    && (forall id :: id in p.provs && p.provs[id].live ==>
                       p.provs[id].notice == StateKey(p.owner, p.bindErr, p.provs[id]))
  }

  ghost predicate BindOk(bind: BindResult) {
    match bind
    case Bound(lns) => lns != [] && Distinct(lns)
    case BindFailed(err) => err != ""
  }

  /** The environment answers a bind sensibly, and iteration finds a latest live client if there is a live one. */
  ghost predicate ChoiceOk(p: Port, now: int, bind: BindResult, pick: ClientId) {
    && BindOk(bind)
    && (AnyLive(Unexpired(p.provs, now)) ==> IsLatest(Unexpired(p.provs, now), pick))
  }

  ghost predicate NoneExpired(provs: map<ClientId, Prov>, now: int) {
    forall id :: id in provs ==> !Expired(provs[id], now)
  }

  lemma SettledFacts(p: Port, now: int)
    requires Editable(p)
    ensures var s := Settled(p, now);
            && Editable(s) && s.provs == Unexpired(p.provs, now) && NoneExpired(s.provs, now)
            && (s.owner != "" ==> HasDevice(s.provs, s.owner))
            && (s.owner == "" && s.provs != map[] ==> AnyLive(s.provs))
            && ((s.owner == p.owner && s.lns == p.lns) || (s.owner == "" && s.lns == []))
  {
    var s := Settled(p, now);
    if s.owner == "" && s.provs != map[] {
      var id :| id in s.provs;
      assert s.provs[id] == p.provs[id];
    }
  }

  /** Bound, or known not to be bindable, with only the notices still to be brought up to date. */
  ghost predicate Ready(b: Port) {
    && Editable(b)
    && (b.owner != "" ==> HasDevice(b.provs, b.owner))
    && (b.owner == "" && b.provs != map[] ==> b.bindErr != "")
  }

  lemma ReboundFacts(s: Port, bind: BindResult, pick: ClientId)
    requires Editable(s) && BindOk(bind)
    requires s.owner != "" ==> HasDevice(s.provs, s.owner)
    requires s.owner == "" && s.provs != map[] ==> IsLatest(s.provs, pick)
    ensures Ready(Rebound(s, bind, pick)) && Rebound(s, bind, pick).provs == s.provs
  {
    hide Distinct;
    if s.owner == "" {
      assert forall id :: id in s.provs ==> s.provs[id].live;
    }
  }

  lemma NotifiedFacts(b: Port, now: int)
    requires Ready(b) && b.provs != map[] && NoneExpired(b.provs, now)
    ensures PortOk(b.(provs := Notified(b.owner, b.bindErr, b.provs), checkedAt := now))
  {
    hide Distinct;
    var n := Notified(b.owner, b.bindErr, b.provs);
    assert forall id :: id in b.provs <==> id in n;
    DeviceStays(b.owner, b.bindErr, b.provs, b.owner);
    assert n != map[] by {
      var id :| id in b.provs;
      assert id in n;
    }
  }

  /** Reconciling an edited port restores everything a registered port satisfies. */
  lemma ReconcileRestores(p: Port, now: int, bind: BindResult, pick: ClientId)
    requires Editable(p) && ChoiceOk(p, now, bind, pick)
    ensures var o := Reconcile(p, now, bind, pick);
            && (o.port.Some? ==> PortOk(o.port.value))
            && (o.port.None? <==> Unexpired(p.provs, now) == map[])
  {
    hide Settled, Rebound, Editable, PortOk, Notified, BindOk, IsLatest, Unexpired, NoneExpired, HasDevice, AnyLive;
    SettledFacts(p, now);
    var s := Settled(p, now);
    ReboundFacts(s, bind, pick);
    var b := Rebound(s, bind, pick);
    if b.provs != map[] {
      NotifiedFacts(b, now);
    }
  }

  lemma DeviceStays(owner: string, bindErr: string, provs: map<ClientId, Prov>, device: string)
    ensures HasDevice(Notified(owner, bindErr, provs), device) <==> HasDevice(provs, device)
  {
    var n := Notified(owner, bindErr, provs);
    if HasDevice(provs, device) {
      var id :| id in provs && provs[id].device == device;
      assert n[id].device == device;
    }
    if HasDevice(n, device) {
      var id :| id in n && n[id].device == device;
      assert provs[id].device == device;
    }
  }

  lemma EditIsEditable(e: Event, p: Option<Port>, q: nat)
    requires (p.Some? ==> PortOk(p.value)) && (e.Hello? ==> e.device != "")
    ensures Edit(e, p, q).Some? ==> Editable(Edit(e, p, q).value)
    ensures Edit(e, p, q).Some? && p.Some? ==> Edit(e, p, q).value.lns == p.value.lns && Edit(e, p, q).value.owner == p.value.owner
    ensures Edit(e, p, q).Some? && p.None? ==> Edit(e, p, q).value.lns == [] && Edit(e, p, q).value.owner == ""
  {
  }

  // Listeners.

  /** Reconciling closes exactly the listeners it does not keep. */
  lemma ListenerFlow(p: Port, now: int, bind: BindResult, pick: ClientId)
    requires Editable(p) && ChoiceOk(p, now, bind, pick)
    ensures var o := Reconcile(p, now, bind, pick);
            var kept := if o.port.Some? then o.port.value.lns else [];
            || (o.acquired == [] && o.closed == [] && kept == p.lns)
            || (o.acquired == [] && o.closed == p.lns && kept == [])
            || (o.acquired != [] && bind == Bound(o.acquired) && o.closed == p.lns && kept == o.acquired)
  {
    SettledFacts(p, now);
    var s := Settled(p, now);
    ReboundFacts(s, bind, pick);
    var b := Rebound(s, bind, pick);
    if b.provs == map[] {
      assert !HasDevice(b.provs, b.owner);
    }
  }

  function LnsAt(r: Reg, q: nat): seq<Listener> {
    if q in r.ports then r.ports[q].lns else []
  }

  ghost predicate Held(r: Reg, l: Listener) {
    exists q :: l in LnsAt(r, q)
  }

  /** Every listener ever opened is held by one port and not closed, or was closed once and is held by none. */
  ghost predicate ListenersOk(r: Reg) {
    && (forall q, l :: l in LnsAt(r, q) ==> l in r.acquired && r.closed[l] == 0)
    && (forall q1, q2, l :: l in LnsAt(r, q1) && l in LnsAt(r, q2) ==> q1 == q2)
    && (forall l :: l in r.acquired ==> Held(r, l) || r.closed[l] == 1)
    && (forall l :: l !in r.acquired ==> r.closed[l] == 0)
  }

  ghost predicate RegOk(r: Reg) {
    && (forall q :: q in r.ports ==> PortOk(r.ports[q]))
    && ListenersOk(r)
  }

  ghost predicate EventOk(e: Event) { e.Hello? ==> e.device != "" }

  /** The environment's answers for one visit: a bind returns listeners that were never used before. */
  ghost predicate VisitOk(r: Reg, e: Event, v: Visit) {
    var edited := Edit(e, Get(r, v.q), v.q);
    edited.Some? ==>
      && ChoiceOk(edited.value, v.now, v.bind, v.pick)
      && (v.bind.Bound? ==> forall l :: l in v.bind.lns ==> l !in r.acquired)
  }

  lemma {:induction false} DistinctCounts(lns: seq<Listener>, l: Listener)
    requires Distinct(lns)
    ensures multiset(lns)[l] == if l in lns then 1 else 0
  {
    if lns == [] {
    } else {
      var init := lns[..|lns| - 1];
      assert lns == init + [lns[|lns| - 1]];
      DistinctCounts(init, l);
    }
  }

  /** r' is r with port q's listeners replaced by `kept`, `acquired` opened and `closed` closed. */
  ghost predicate Moves(r: Reg, q: nat, kept: seq<Listener>, acquired: seq<Listener>, closed: seq<Listener>, r': Reg) {
    && (forall x :: x != q ==> LnsAt(r', x) == LnsAt(r, x))
    && LnsAt(r', q) == kept
    && (forall l :: l in r'.acquired <==> l in r.acquired || l in acquired)
    && (forall l :: r'.closed[l] == r.closed[l] + if l in closed then 1 else 0)
  }

  lemma SettleMoves(r: Reg, q: nat, o: Outcome)
    requires Distinct(o.closed)
    ensures Moves(r, q, if o.port.Some? then o.port.value.lns else [], o.acquired, o.closed, Settle(r, q, o))
  {
    forall l ensures multiset(o.closed)[l] == if l in o.closed then 1 else 0 { DistinctCounts(o.closed, l); }
  }

  lemma HeldElsewhere(r: Reg, q: nat, r': Reg, l: Listener)
    requires Held(r, l) && l !in LnsAt(r, q) && forall x :: x != q ==> LnsAt(r', x) == LnsAt(r, x)
    ensures Held(r', l)
  {
    var x :| l in LnsAt(r, x);
    assert l in LnsAt(r', x);
  }

  /** Keeping, closing, and replacing the listeners of one port each keep the books straight. */
  lemma MovesKeepListeners(r: Reg, q: nat, kept: seq<Listener>, acquired: seq<Listener>, closed: seq<Listener>, r': Reg)
    requires ListenersOk(r) && Moves(r, q, kept, acquired, closed, r')
    requires || (acquired == [] && closed == [] && kept == LnsAt(r, q))
             || (acquired == [] && closed == LnsAt(r, q) && kept == [])
             || (closed == LnsAt(r, q) && kept == acquired && forall l :: l in acquired ==> l !in r.acquired)
    ensures ListenersOk(r')
  {
    hide LnsAt;
    forall l | l in r'.acquired ensures Held(r', l) || r'.closed[l] == 1 {
      if l in LnsAt(r', q) {
        assert Held(r', l);
      } else if Held(r, l) && l !in LnsAt(r, q) {
        HeldElsewhere(r, q, r', l);
      } else if l in LnsAt(r, q) {
        assert l in closed;
      }
    }
  }

  /** Every visit keeps the registry consistent. */
  lemma VisitKeeps(r: Reg, e: Event, v: Visit)
    requires RegOk(r) && EventOk(e) && VisitOk(r, e, v)
    ensures RegOk(VisitPort(r, e, v))
  {
    hide PortOk, Editable, ChoiceOk, Reconcile, ListenersOk, Distinct, Edit, Moves;
    var p := Get(r, v.q);
    EditIsEditable(e, p, v.q);
    var edited := Edit(e, p, v.q);
    if edited.Some? {
      ReconcileRestores(edited.value, v.now, v.bind, v.pick);
      ListenerFlow(edited.value, v.now, v.bind, v.pick);
      EditedDistinct(edited.value);
      var o := Reconcile(edited.value, v.now, v.bind, v.pick);
      NothingDistinct();
      SettleMoves(r, v.q, o);
      MovesKeepListeners(r, v.q, if o.port.Some? then o.port.value.lns else [], o.acquired, o.closed, VisitPort(r, e, v));
    }
  }

  lemma NothingDistinct()
    ensures Distinct<Listener>([])
  {
  }

  lemma EditedDistinct(p: Port)
    requires Editable(p)
    ensures Distinct(p.lns)
  {
  }

  // Whole events: every affected port is visited once, in some order.

  ghost predicate OncePerPort(vs: seq<Visit>) {
    forall i, j :: 0 <= i < j < |vs| ==> vs[i].q != vs[j].q
  }

  ghost predicate VisitsOk(r: Reg, e: Event, vs: seq<Visit>) {
    vs == [] ||
    (VisitsOk(r, e, vs[..|vs| - 1]) && VisitOk(Apply(r, e, vs[..|vs| - 1]), e, vs[|vs| - 1]))
  }

  ghost predicate Covers(r: Reg, e: Event, vs: seq<Visit>) {
    forall q :: Edit(e, Get(r, q), q).Some? ==> exists i :: 0 <= i < |vs| && vs[i].q == q
  }

  /** One event, as the registry processes it under its lock. */
  ghost predicate TurnOk(r: Reg, e: Event, vs: seq<Visit>) {
    EventOk(e) && OncePerPort(vs) && VisitsOk(r, e, vs) && Covers(r, e, vs)
  }

  lemma {:induction false} ApplyKeeps(r: Reg, e: Event, vs: seq<Visit>)
    requires RegOk(r) && EventOk(e) && VisitsOk(r, e, vs)
    ensures RegOk(Apply(r, e, vs))
  {
    hide RegOk, VisitPort, VisitOk;
    if vs == [] {
    } else {
      ApplyKeeps(r, e, vs[..|vs| - 1]);
      VisitKeeps(Apply(r, e, vs[..|vs| - 1]), e, vs[|vs| - 1]);
    }
  }

  /** Port q after the event, given what its own visit said. */
  ghost function Visited(r: Reg, e: Event, v: Visit): Option<Port> {
    var edited := Edit(e, Get(r, v.q), v.q);
    if edited.None? then Get(r, v.q) else Reconcile(edited.value, v.now, v.bind, v.pick).port
  }

  lemma VisitIsLocal(r: Reg, e: Event, v: Visit, q: nat)
    ensures Get(VisitPort(r, e, v), q) == if q == v.q then Visited(r, e, v) else Get(r, q)
  {
    hide Edit, Reconcile;
  }

  /** The order of the visits does not matter to any one port. */
  lemma {:induction false} ApplyIsPointwise(r: Reg, e: Event, vs: seq<Visit>, q: nat)
    requires OncePerPort(vs)
    ensures (forall i :: 0 <= i < |vs| ==> vs[i].q != q) ==> Get(Apply(r, e, vs), q) == Get(r, q)
    ensures forall i :: 0 <= i < |vs| && vs[i].q == q ==> Get(Apply(r, e, vs), q) == Visited(r, e, vs[i])
  {
    hide Edit, Reconcile, VisitPort;
    if vs == [] {
    } else {
      var init, v := vs[..|vs| - 1], vs[|vs| - 1];
      ApplyIsPointwise(r, e, init, q);
      VisitIsLocal(Apply(r, e, init), e, v, q);
      assert forall i :: 0 <= i < |init| ==> init[i] == vs[i];
    }
  }

  /** If an event touches port q at all, some visit decided what became of it. */
  lemma VisitOf(r: Reg, e: Event, vs: seq<Visit>, q: nat) returns (v: Visit)
    requires RegOk(r) && TurnOk(r, e, vs) && Edit(e, Get(r, q), q).Some?
    ensures v.q == q && v in vs && Get(Apply(r, e, vs), q) == Visited(r, e, v)
    ensures ChoiceOk(Edit(e, Get(r, q), q).value, v.now, v.bind, v.pick)
  {
    hide Reconcile, RegOk;
    var i :| 0 <= i < |vs| && vs[i].q == q;
    v := vs[i];
    ApplyIsPointwise(r, e, vs, q);
    VisitedChoice(r, e, vs, i);
  }

  lemma {:induction false} VisitedChoice(r: Reg, e: Event, vs: seq<Visit>, i: nat)
    requires OncePerPort(vs) && VisitsOk(r, e, vs) && i < |vs| && Edit(e, Get(r, vs[i].q), vs[i].q).Some?
    ensures ChoiceOk(Edit(e, Get(r, vs[i].q), vs[i].q).value, vs[i].now, vs[i].bind, vs[i].pick)
  {
    hide Reconcile, Edit, ChoiceOk;
    var init := vs[..|vs| - 1];
    assert forall k :: 0 <= k < |init| ==> init[k] == vs[k];
    if i < |init| {
      VisitedChoice(r, e, init, i);
    } else {
      ApplyIsPointwise(r, e, init, vs[i].q);
    }
  }

  // Ownership.

  /** Reconciling never moves a port away from a device that still has a registration on it. */
  lemma OwnerKeeps(p: Port, now: int, bind: BindResult, pick: ClientId)
    requires Editable(p) && p.owner != "" && HasDevice(Unexpired(p.provs, now), p.owner)
    ensures var o := Reconcile(p, now, bind, pick);
            o.port.Some? && o.port.value.owner == p.owner && o.port.value.lns == p.lns && o.closed == [] && o.acquired == []
  {
  }

  lemma OutcomeDevices(p: Port, now: int, bind: BindResult, pick: ClientId, device: string)
    requires Reconcile(p, now, bind, pick).port.Some?
    ensures HasDevice(Reconcile(p, now, bind, pick).port.value.provs, device) <==> HasDevice(Unexpired(p.provs, now), device)
  {
    var b := Rebound(Settled(p, now), bind, pick);
    DeviceStays(b.owner, b.bindErr, b.provs, device);
  }

  /**
   No stealing: in every event, a device that owns a port and has any live or
   dormant registration on it afterwards still owns it, on the same listeners.
   */
  lemma NoStealing(r: Reg, e: Event, vs: seq<Visit>, q: nat)
    requires RegOk(r) && TurnOk(r, e, vs)
    requires q in r.ports && r.ports[q].owner != ""
    requires var r' := Apply(r, e, vs); q in r'.ports && HasDevice(r'.ports[q].provs, r.ports[q].owner)
    ensures var r' := Apply(r, e, vs);
            r'.ports[q].owner == r.ports[q].owner && r'.ports[q].lns == r.ports[q].lns
  {
    hide Reconcile, HasDevice, Unexpired, PortOk, Editable;
    var p := Get(r, q);
    var device := r.ports[q].owner;
    EditIsEditable(e, p, q);
    if Edit(e, p, q).Some? {
      var edited := Edit(e, p, q).value;
      var v := VisitOf(r, e, vs, q);
      OutcomeDevices(edited, v.now, v.bind, v.pick, device);
      OwnerKeeps(edited, v.now, v.bind, v.pick);
    } else {
      UntouchedStays(r, e, vs, q);
    }
  }

  lemma UntouchedStays(r: Reg, e: Event, vs: seq<Visit>, q: nat)
    requires OncePerPort(vs) && Edit(e, Get(r, q), q).None?
    ensures Get(Apply(r, e, vs), q) == Get(r, q)
  {
    hide Edit, Reconcile;
    ApplyIsPointwise(r, e, vs, q);
    if i :| 0 <= i < |vs| && vs[i].q == q {
      assert Visited(r, e, vs[i]) == Get(r, q);
    }
  }

  /**
   Takeover: when the last registration of the owner's device goes, the port
   passes in the same event to the device of a live client with the latest
   hello if the bind succeeds, stays registered with the failure recorded if
   it does not, and is dropped if nobody live is left; the old listeners are
   closed in every case.
   */
  lemma Takeover(p: Port, now: int, bind: BindResult, pick: ClientId)
    requires Editable(p) && ChoiceOk(p, now, bind, pick) && !HasDevice(Unexpired(p.provs, now), p.owner)
    ensures var o := Reconcile(p, now, bind, pick);
            var left := Unexpired(p.provs, now);
            && o.closed == p.lns
            && (AnyLive(left) ==>
                  && o.port.Some? && pick in left && left[pick].live
                  && (forall id :: id in left && left[id].live ==> left[id].helloAt <= left[pick].helloAt)
                  && (bind.Bound? ==> o.port.value.owner == left[pick].device && o.port.value.lns == bind.lns == o.acquired)
                  && (bind.BindFailed? ==> o.port.value.owner == "" && o.port.value.bindErr == bind.err && o.acquired == []))
            && (!AnyLive(left) ==> o.port.None? && o.acquired == [])
  {
    SettledFacts(p, now);
    hide Distinct;
    var s := Settled(p, now);
    assert s.owner == "" && s.lns == [];
    if AnyLive(s.provs) {
      assert s.provs != map[];
    }
  }

  /** The registrations left on port q once the event and the expiry at `now` are taken into account. */
  ghost function Left(r: Reg, e: Event, q: nat, now: int): map<ClientId, Prov> {
    var edited := Edit(e, Get(r, q), q);
    Unexpired(if edited.Some? then edited.value.provs else map[], now)
  }

  /** Takeover within one whole event, whatever else the event touches. */
  lemma TakeoverInEvent(r: Reg, e: Event, vs: seq<Visit>, q: nat) returns (v: Visit)
    requires RegOk(r) && TurnOk(r, e, vs) && q in r.ports && r.ports[q].owner != ""
    requires Edit(e, Get(r, q), q).Some?
    ensures v in vs && v.q == q
    ensures var r', left := Apply(r, e, vs), Left(r, e, q, v.now);
            !HasDevice(left, r.ports[q].owner) ==>
              && (AnyLive(left) ==>
                    && q in r'.ports && v.pick in left && left[v.pick].live
                    && (forall id :: id in left && left[id].live ==> left[id].helloAt <= left[v.pick].helloAt)
                    && (v.bind.Bound? ==> r'.ports[q].owner == left[v.pick].device && r'.ports[q].lns == v.bind.lns)
                    && (v.bind.BindFailed? ==> r'.ports[q].owner == "" && r'.ports[q].bindErr == v.bind.err))
              && (!AnyLive(left) ==> q !in r'.ports)
  {
    hide Reconcile, HasDevice, Unexpired, PortOk, Editable, AnyLive, IsLatest;
    EditIsEditable(e, Get(r, q), q);
    v := VisitOf(r, e, vs, q);
    var edited := Edit(e, Get(r, q), q).value;
    if !HasDevice(Unexpired(edited.provs, v.now), edited.owner) {
      Takeover(edited, v.now, v.bind, v.pick);
    }
  }

  // What becomes of one client's registration.

  /** The registration of a client on a port. */
  function ProvOf(p: Option<Port>, id: ClientId): Option<Prov> {
    if p.Some? && id in p.value.provs then Some(p.value.provs[id]) else None
  }

  /** A dormant registration lasts 24 hours, in nanoseconds, and not longer. */
  predicate Lasts(pr: Prov, now: int) { pr.live || now - pr.lostAt <= 24 * 3600 * 1_000_000_000 }

  /** The same registration, whatever notice was sent. */
  predicate SameProv(a: Option<Prov>, b: Option<Prov>) {
    if a.Some? && b.Some? then a.value.(notice := "") == b.value.(notice := "") else a == b
  }

  /** The event says nothing about this client. */
  predicate Spares(e: Event, id: ClientId) {
    match e
    case Hello(other, _, _, _) => other != id
    case Gone(other, _, _) => other != id
    case DropSession(session) => session != id.session
    case Tick => true
  }

  lemma ReconciledProv(p: Port, now: int, bind: BindResult, pick: ClientId, id: ClientId)
    ensures var before := ProvOf(Some(p), id);
            SameProv(ProvOf(Reconcile(p, now, bind, pick).port, id),
                     if before.Some? && Lasts(before.value, now) then before else None)
  {
    var b := Rebound(Settled(p, now), bind, pick);
    assert b.provs == Unexpired(p.provs, now);
    assert id in p.provs ==> (Expired(p.provs[id], now) <==> !Lasts(p.provs[id], now));
    var told := Notified(b.owner, b.bindErr, b.provs);
    assert id in b.provs ==> told[id].(notice := "") == b.provs[id].(notice := "");
    var o := Reconcile(p, now, bind, pick);
    assert o.port == if b.provs == map[] then None else Some(b.(provs := told, checkedAt := now));
    hide Rebound, Settled, Reconcile, Notified;
  }

  /** What the event itself makes of the registration of `id` on port q. */
  ghost function Edited(e: Event, p: Option<Port>, q: nat, id: ClientId): Option<Prov> {
    var before := ProvOf(p, id);
    match e
    case Hello(other, device, ports, now) =>
      if other != id then before
      else if exists i :: 0 <= i < |ports| && i < 16 && ports[i] != 0 && ports[i] == q then Some(Prov(device, true, now, 0, ""))
      else None
    case Gone(other, explicitly, now) =>
      if other != id || before.None? then before
      else if explicitly || before.value.device != p.value.owner then None
      else Some(before.value.(live := false, lostAt := now))
    case DropSession(session) => if session == id.session then None else before
    case Tick => before
  }

  lemma EditedProv(e: Event, p: Option<Port>, q: nat, id: ClientId)
    ensures Edit(e, p, q).Some? ==> ProvOf(Edit(e, p, q), id) == Edited(e, p, q, id)
    ensures Edit(e, p, q).None? ==> ProvOf(p, id) == Edited(e, p, q, id)
  {
  }

  /** The event makes the registry look at port q. */
  ghost predicate Touches(r: Reg, e: Event, q: nat) { Edit(e, Get(r, q), q).Some? }

  /**
   One event and one client's registration: a hello registers exactly the ports
   it names, afresh; an explicit end, an end for a device that does not own the
   port, and the end of the session remove it; any other end makes it dormant;
   and otherwise it only goes when the port is looked at and its 24 hours are over.
   */
  lemma RegistrationAfter(r: Reg, e: Event, vs: seq<Visit>, q: nat, id: ClientId)
    requires RegOk(r) && TurnOk(r, e, vs)
    ensures var now := Edited(e, Get(r, q), q, id);
            var after := ProvOf(Get(Apply(r, e, vs), q), id);
            && (Touches(r, e, q) ==> exists i :: 0 <= i < |vs| && vs[i].q == q)
            && (Touches(r, e, q) ==>
                  forall i :: 0 <= i < |vs| && vs[i].q == q ==>
                                SameProv(after, if now.Some? && Lasts(now.value, vs[i].now) then now else None))
            && (!Touches(r, e, q) ==> SameProv(after, now))
  {
    hide Reconcile, Edit, RegOk, SameProv, Lasts, Edited;
    EditedProv(e, Get(r, q), q, id);
    SameAsItself(Edited(e, Get(r, q), q, id));
    if Touches(r, e, q) {
      var edited := Edit(e, Get(r, q), q).value;
      ApplyIsPointwise(r, e, vs, q);
      forall i | 0 <= i < |vs| && vs[i].q == q
        ensures var now := Edited(e, Get(r, q), q, id);
                SameProv(ProvOf(Get(Apply(r, e, vs), q), id), if now.Some? && Lasts(now.value, vs[i].now) then now else None)
      {
        ReconciledProv(edited, vs[i].now, vs[i].bind, vs[i].pick, id);
      }
    } else {
      UntouchedStays(r, e, vs, q);
    }
  }

  lemma SameAsItself(a: Option<Prov>)
    ensures SameProv(a, a)
  {
  }

  // Dormancy.

  /** Port q is held for its owner by a registration that has been dormant since t. */
  predicate DormantSince(r: Reg, q: nat, id: ClientId, t: int) {
    var pr := ProvOf(Get(r, q), id);
    pr.Some? && !pr.value.live && pr.value.lostAt == t && pr.value.device == r.ports[q].owner && pr.value.device != ""
  }

  /** No clock reading of this event is more than 24 hours after t. */
  predicate InTime(vs: seq<Visit>, t: int) {
    forall i :: 0 <= i < |vs| ==> vs[i].now - t <= 24 * 3600 * 1_000_000_000
  }

  /** A registration of the owner's device that is left keeps the port and its listeners. */
  lemma HeldBySurvivor(r: Reg, e: Event, vs: seq<Visit>, q: nat, id: ClientId)
    requires RegOk(r) && TurnOk(r, e, vs) && q in r.ports && r.ports[q].owner != ""
    requires var after := ProvOf(Get(Apply(r, e, vs), q), id); after.Some? && after.value.device == r.ports[q].owner
    ensures var r' := Apply(r, e, vs);
            q in r'.ports && r'.ports[q].owner == r.ports[q].owner && r'.ports[q].lns == r.ports[q].lns
  {
    hide RegOk, TurnOk, Apply;
    NoStealing(r, e, vs, q);
  }

  /** A connection that ends without saying so leaves its device's port dormant, with the same listeners. */
  lemma DormancyBegins(r: Reg, e: Event, vs: seq<Visit>, q: nat)
    requires RegOk(r) && TurnOk(r, e, vs) && e.Gone? && !e.explicitly && InTime(vs, e.now)
    requires q in r.ports && r.ports[q].owner != "" && e.id in r.ports[q].provs
    requires r.ports[q].provs[e.id].device == r.ports[q].owner
    ensures var r' := Apply(r, e, vs);
            && DormantSince(r', q, e.id, e.now)
            && r'.ports[q].owner == r.ports[q].owner && r'.ports[q].lns == r.ports[q].lns
  {
    hide RegOk, TurnOk, Apply, Touches;
    RegistrationAfter(r, e, vs, q, e.id);
    HeldBySurvivor(r, e, vs, q, e.id);
  }

  /** It stays dormant, and the port stays with its owner, through every event that spares the client within 24 hours. */
  lemma DormancyLasts(r: Reg, e: Event, vs: seq<Visit>, q: nat, id: ClientId, t: int)
    requires RegOk(r) && TurnOk(r, e, vs) && Spares(e, id) && InTime(vs, t) && DormantSince(r, q, id, t)
    ensures var r' := Apply(r, e, vs);
            && DormantSince(r', q, id, t)
            && r'.ports[q].owner == r.ports[q].owner && r'.ports[q].lns == r.ports[q].lns
  {
    hide RegOk, TurnOk, Apply, Touches;
    RegistrationAfter(r, e, vs, q, id);
    HeldBySurvivor(r, e, vs, q, id);
  }

  /** The first tick later than that removes the registration. */
  lemma DormancyEnds(r: Reg, vs: seq<Visit>, q: nat, id: ClientId, t: int)
    requires RegOk(r) && TurnOk(r, Tick, vs) && DormantSince(r, q, id, t)
    requires forall i :: 0 <= i < |vs| && vs[i].q == q ==> vs[i].now - t > 24 * 3600 * 1_000_000_000
    ensures q !in PortsOf(Apply(r, Tick, vs), id)
  {
    RegistrationAfter(r, Tick, vs, q, id);
    hide RegOk, TurnOk, Apply;
    assert Touches(r, Tick, q);
  }

  /** Turns that spare the client, all within 24 hours of t. */
  ghost predicate QuietRun(r: Reg, ts: seq<Turn>, id: ClientId, t: int) {
    ts == [] ||
    (var init, last := ts[..|ts| - 1], ts[|ts| - 1];
     && QuietRun(r, init, id, t)
     && TurnOk(RunFrom(r, init), last.e, last.vs) && Spares(last.e, id) && InTime(last.vs, t))
  }

  /**
   A device whose connection ends without saying so keeps its port on the same
   listeners, through any run of events that spare the client, for 24 hours.
   */
  lemma {:induction false} PortSurvivesDisconnect(r: Reg, ts: seq<Turn>, q: nat, id: ClientId, t: int)
    requires RegOk(r) && DormantSince(r, q, id, t) && QuietRun(r, ts, id, t)
    ensures var r' := RunFrom(r, ts);
            && RegOk(r') && DormantSince(r', q, id, t)
            && r'.ports[q].owner == r.ports[q].owner && r'.ports[q].lns == r.ports[q].lns
  {
    hide RegOk, TurnOk, Apply, InTime, Spares;
    if ts == [] {
    } else {
      var init, last := ts[..|ts| - 1], ts[|ts| - 1];
      PortSurvivesDisconnect(r, init, q, id, t);
      TurnKeeps(RunFrom(r, init), last);
      DormancyLasts(RunFrom(r, init), last.e, last.vs, q, id, t);
    }
  }

  lemma TurnKeeps(r: Reg, turn: Turn)
    requires RegOk(r) && TurnOk(r, turn.e, turn.vs)
    ensures RegOk(Apply(r, turn.e, turn.vs))
  {
    ApplyKeeps(r, turn.e, turn.vs);
  }

  // Notices.

  lemma BindFailKey(err: string)
    ensures "bindfail:" + err != "active" && "bindfail:" + err != "busy" && "bindfail:" + err != ""
  {
    assert ("bindfail:" + err)[1] == 'i';
    assert "busy"[1] == 'u' && "active"[1] == 'c';
  }

  /** What a live client was last told is true: that its device has the port, that another has, or why the bind failed. */
  lemma NoticeTells(p: Port, id: ClientId)
    requires PortOk(p) && id in p.provs && p.provs[id].live
    ensures var notice := p.provs[id].notice;
            && (notice == "active" <==> p.owner == p.provs[id].device)
            && (notice == "busy" <==> p.owner != "" && p.owner != p.provs[id].device)
            && (p.owner == "" <==> p.lns == [])
            && (p.owner == "" <==> notice == "bindfail:" + p.bindErr)
  {
    BindFailKey(p.bindErr);
  }

  // How many ports a client holds.

  ghost function PortsOf(r: Reg, id: ClientId): set<nat> {
    set q | q in r.ports && id in r.ports[q].provs
  }

  lemma {:induction false} ImageSize(ports: seq<nat>, n: nat)
    requires n <= |ports|
    ensures |set i | 0 <= i < n && ports[i] != 0 :: ports[i]| <= n
  {
    if n == 0 {
    } else {
      ImageSize(ports, n - 1);
      var before := set i | 0 <= i < n - 1 && ports[i] != 0 :: ports[i];
      assert (set i | 0 <= i < n && ports[i] != 0 :: ports[i]) == before + if ports[n - 1] != 0 then {ports[n - 1]} else {};
    }
  }

  lemma WantedSize(ports: seq<nat>)
    ensures |Wanted(ports)| <= MAX_PORTS
  {
    var n := if |ports| < MAX_PORTS then |ports| else MAX_PORTS;
    ImageSize(ports, n);
    assert Wanted(ports) == set i | 0 <= i < n && ports[i] != 0 :: ports[i];
  }

  lemma OutcomeClients(p: Port, now: int, bind: BindResult, pick: ClientId, id: ClientId)
    ensures var o := Reconcile(p, now, bind, pick);
            o.port.Some? && id in o.port.value.provs <==> id in Unexpired(p.provs, now)
  {
  }

  lemma EditClients(e: Event, p: Option<Port>, q: nat, id: ClientId)
    requires !(e.Hello? && e.id == id)
    ensures Edit(e, p, q).Some? && id in Edit(e, p, q).value.provs ==> p.Some? && id in p.value.provs
  {
  }

  /** An event of somebody else never gives a client a port. */
  lemma OthersGainNothing(r: Reg, e: Event, vs: seq<Visit>, id: ClientId, q: nat)
    requires RegOk(r) && TurnOk(r, e, vs) && !(e.Hello? && e.id == id)
    requires q in PortsOf(Apply(r, e, vs), id)
    ensures q in PortsOf(r, id)
  {
    hide Reconcile, Edit, RegOk;
    if Edit(e, Get(r, q), q).Some? {
      var v := VisitOf(r, e, vs, q);
      var edited := Edit(e, Get(r, q), q).value;
      OutcomeClients(edited, v.now, v.bind, v.pick, id);
      EditClients(e, Get(r, q), q, id);
    } else {
      UntouchedStays(r, e, vs, q);
    }
  }

  /** After its hello a client is registered on exactly the ports it asked for. */
  lemma HelloRegisters(r: Reg, e: Event, vs: seq<Visit>, q: nat)
    requires RegOk(r) && TurnOk(r, e, vs) && e.Hello?
    ensures q in PortsOf(Apply(r, e, vs), e.id) <==> q in Wanted(e.ports)
  {
    hide Reconcile, RegOk, Wanted;
    if Edit(e, Get(r, q), q).Some? {
      var v := VisitOf(r, e, vs, q);
      OutcomeClients(Edit(e, Get(r, q), q).value, v.now, v.bind, v.pick, e.id);
    } else {
      UntouchedStays(r, e, vs, q);
    }
  }

  lemma SubsetSize(a: set<nat>, b: set<nat>)
    requires a <= b
    ensures |a| <= |b|
  {
    assert b == a + (b - a);
  }

  lemma PortLimitKept(r: Reg, e: Event, vs: seq<Visit>, id: ClientId)
    requires RegOk(r) && TurnOk(r, e, vs) && |PortsOf(r, id)| <= MAX_PORTS
    ensures |PortsOf(Apply(r, e, vs), id)| <= MAX_PORTS
  {
    hide RegOk, TurnOk, PortsOf, Apply;
    var after := PortsOf(Apply(r, e, vs), id);
    if e.Hello? && e.id == id {
      forall q | q in after ensures q in Wanted(e.ports) { HelloRegisters(r, e, vs, q); }
      WantedSize(e.ports);
      SubsetSize(after, Wanted(e.ports));
    } else {
      forall q | q in after ensures q in PortsOf(r, id) { OthersGainNothing(r, e, vs, id, q); }
      SubsetSize(after, PortsOf(r, id));
    }
  }

  // Runs.

  datatype Turn = Turn(e: Event, vs: seq<Visit>)

  ghost function RunFrom(r: Reg, ts: seq<Turn>): Reg {
    if ts == [] then r else Apply(RunFrom(r, ts[..|ts| - 1]), ts[|ts| - 1].e, ts[|ts| - 1].vs)
  }

  ghost function Run(ts: seq<Turn>): Reg { RunFrom(EMPTY, ts) }

  ghost predicate RunOk(ts: seq<Turn>) {
    ts == [] || (RunOk(ts[..|ts| - 1]) && TurnOk(Run(ts[..|ts| - 1]), ts[|ts| - 1].e, ts[|ts| - 1].vs))
  }

  /**
   After every sequence of hello, gone, dropSession and tick events: every
   registered port is consistent, every listener is held once or was closed
   once, and no client holds more than sixteen ports.
   */
  lemma {:induction false} RegistryInvariant(ts: seq<Turn>, id: ClientId)
    requires RunOk(ts)
    ensures RegOk(Run(ts))
    ensures |PortsOf(Run(ts), id)| <= MAX_PORTS
  {
    if ts == [] {
      assert PortsOf(EMPTY, id) == {};
      assert forall q :: LnsAt(EMPTY, q) == [];
    } else {
      var t := ts[|ts| - 1];
      RegistryInvariant(ts[..|ts| - 1], id);
      hide RegOk, PortsOf, Apply, VisitsOk, Covers, OncePerPort;
      ApplyKeeps(Run(ts[..|ts| - 1]), t.e, t.vs);
      PortLimitKept(Run(ts[..|ts| - 1]), t.e, t.vs, id);
    }
  }
}
