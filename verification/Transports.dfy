/**
 The life of the client's UDP transports (internal/qtransport/client.go and
 liveness.go): migration adds transports to a live connection, reconnect and
 failover replace the connection, and every transport must be closed, once, and
 not while the live connection still uses it.
 */
module Transports {
  import opened Bytes

  const MAX_PATHS: nat := 2

  type Transport = nat

  /** One candidate of a parallel dial: the transport it opened, if any, and whether the dial succeeded. */
  datatype Attempt = Attempt(tr: Option<Transport>, ok: bool)

  /**
   `tr` and `paths` are the client's fields. `registered` are the transports
   the live connection is registered on; `retired` will be closed by their own
   goroutines; `closed` counts closes; `acquired` are all transports ever opened.
   */
  datatype Conn = Conn(
    tr: Transport, paths: seq<Transport>, registered: set<Transport>,
    retired: multiset<Transport>, closed: multiset<Transport>, acquired: set<Transport>, over: bool)

  datatype Event =
    | MigrateRefused
    | MigrateNoPath(tr: Transport)
    | MigrateNoProbe(tr: Transport)
    | MigrateDone(tr: Transport)
    | Redial(results: seq<Attempt>, adopt: bool)
    | RetireFires(tr: Transport)
    | Close

  // dialParallel.

  /** The first success in arrival order. */
  function Winner(results: seq<Attempt>): Option<Transport> {
    if results == [] then None
    else
      var w := Winner(results[..|results| - 1]);
      var a := results[|results| - 1];
      if w.None? && a.ok then a.tr else w
  }

  /** Every transport opened by the dial. */
  function Dialled(results: seq<Attempt>): multiset<Transport> {
    if results == [] then multiset{}
    else
      var a := results[|results| - 1];
      Dialled(results[..|results| - 1]) + if a.tr.Some? then multiset{a.tr.value} else multiset{}
  }

  predicate ResultsOk(results: seq<Attempt>) {
    forall i :: 0 <= i < |results| && results[i].ok ==> results[i].tr.Some?
  }

  /** A failed dial closes its own transport; a success after the first is closed by the collector. */
  method DialParallel(results: seq<Attempt>) returns (winner: Option<Transport>, closed: multiset<Transport>)
    requires ResultsOk(results)
    ensures winner == Winner(results)
    ensures closed + (if winner.Some? then multiset{winner.value} else multiset{}) == Dialled(results)
    ensures winner.Some? ==> exists i :: 0 <= i < |results| && results[i] == Attempt(winner, true) && forall j :: 0 <= j < i ==> !results[j].ok
    ensures winner.None? ==> forall i :: 0 <= i < |results| ==> !results[i].ok
  {
    winner, closed := None, multiset{};
    ghost var at := 0;
    for i := 0 to |results|
      invariant winner == Winner(results[..i])
      invariant closed + (if winner.Some? then multiset{winner.value} else multiset{}) == Dialled(results[..i])
      invariant winner.Some? ==> 0 <= at < i && results[at] == Attempt(winner, true) && forall j :: 0 <= j < at ==> !results[j].ok
      invariant winner.None? ==> forall j :: 0 <= j < i ==> !results[j].ok
    {
      assert results[..i + 1][..i] == results[..i];
      var r := results[i];
      if !r.ok {
        if r.tr.Some? {
          closed := closed + multiset{r.tr.value};
        }
      } else if winner.None? {
        winner := r.tr;
        at := i;
      } else {
        closed := closed + multiset{r.tr.value};
      }
    }
    assert results[..|results|] == results;
  }

  lemma {:induction false} WinnerDialled(results: seq<Attempt>)
    requires ResultsOk(results)
    ensures Winner(results).Some? ==> Winner(results).value in Dialled(results)
  {
    if results == [] {
    } else {
      WinnerDialled(results[..|results| - 1]);
    }
  }

  // One step.

  function Losers(results: seq<Attempt>): multiset<Transport> {
    Dialled(results) - if Winner(results).Some? then multiset{Winner(results).value} else multiset{}
  }

  lemma LosersFrom(results: seq<Attempt>, lost: multiset<Transport>)
    requires lost + (if Winner(results).Some? then multiset{Winner(results).value} else multiset{}) == Dialled(results)
    ensures lost == Losers(results)
  {
    hide Winner, Dialled;
  }

  function Opens(results: seq<Attempt>): set<Transport> {
    set i | 0 <= i < |results| && results[i].tr.Some? :: results[i].tr.value
  }

  /** adoptConn: the old connection is closed and its transports retire with it. */
  function Adopt(s: Conn, w: Transport): Conn {
    s.(tr := w, paths := [], registered := {w}, retired := s.retired + multiset{s.tr} + multiset(s.paths))
  }

  function Next(s: Conn, e: Event): Conn {
    match e
    case MigrateRefused => s
    case MigrateNoPath(t) => s.(acquired := s.acquired + {t}, closed := s.closed + multiset{t})
    case MigrateNoProbe(t) =>
      s.(acquired := s.acquired + {t}, paths := s.paths + [t], registered := s.registered + {t})
    case MigrateDone(t) =>
      s.(acquired := s.acquired + {t}, paths := s.paths + [s.tr], tr := t, registered := s.registered + {t})
    case Redial(results, adopt) =>
      var s' := s.(acquired := s.acquired + Opens(results), closed := s.closed + Losers(results));
      if Winner(results).None? then s'
      else if adopt then Adopt(s', Winner(results).value)
      else s'.(closed := s'.closed + multiset{Winner(results).value})
    case RetireFires(t) => s.(retired := s.retired - multiset{t}, closed := s.closed + multiset{t})
    case Close =>
      s.(paths := [], registered := {}, closed := s.closed + multiset{s.tr} + multiset(s.paths), over := true)
  }

  lemma RedialCases(s: Conn, results: seq<Attempt>)
    ensures var s' := s.(acquired := s.acquired + Opens(results), closed := s.closed + Losers(results));
            && (Winner(results).None? ==> forall adopt :: Next(s, Redial(results, adopt)) == s')
            && (Winner(results).Some? ==>
                  var w := Winner(results).value;
                  && Next(s, Redial(results, false)) == s'.(closed := s'.closed + multiset{w})
                  && Next(s, Redial(results, true)) ==
                     s'.(tr := w, paths := [], registered := {w}, retired := s.retired + multiset{s.tr} + multiset(s.paths)))
  {
    hide Opens, Losers, Dialled, Winner;
  }

  /** Transports a step opens are new; migration stops at the limit; after Close only retirements fire. */
  ghost predicate Enabled(s: Conn, e: Event) {
    match e
    case MigrateRefused => !s.over
    case MigrateNoPath(t) => !s.over && |s.paths| < MAX_PATHS && t !in s.acquired
    case MigrateNoProbe(t) => !s.over && |s.paths| < MAX_PATHS && t !in s.acquired
    case MigrateDone(t) => !s.over && |s.paths| < MAX_PATHS && t !in s.acquired
    case Redial(results, _) =>
      && !s.over && ResultsOk(results)
      && (forall t :: Dialled(results)[t] <= 1)
      && (forall t :: t in Dialled(results) ==> t !in s.acquired)
    case RetireFires(t) => t in s.retired
    case Close => !s.over
  }

  /** The client's migrate, with the answers of the network as arguments. */
  class QuicClient {
    var tr: Transport
    var pathTransports: seq<Transport>
    ghost var registered: set<Transport>
    ghost var retired: multiset<Transport>
    ghost var closed: multiset<Transport>
    ghost var acquired: set<Transport>
    ghost var over: bool

    ghost function View(): Conn
      reads this
    {
      Conn(tr, pathTransports, registered, retired, closed, acquired, over)
    }

    method Migrate(socket: Option<Transport>, pathAdded: bool, probed: bool, switched: bool) returns (ok: bool)
      modifies this
      ensures View() == Next(old(View()), MigrateEvent(|old(pathTransports)|, socket, pathAdded, probed, switched))
      ensures ok == (|old(pathTransports)| < 2 && socket.Some? && pathAdded && probed && switched)
      ensures ok ==> tr == socket.value && pathTransports == old(pathTransports) + [old(tr)]
      ensures !ok ==> tr == old(tr)
    {
      if |pathTransports| >= MAX_PATHS {
        return false;
      }
      if socket.None? {
        return false;
      }
      var added := socket.value;
      acquired := acquired + {added};
      if !pathAdded {
        closed := closed + multiset{added};
        return false;
      }
      registered := registered + {added};
      if !probed || !switched {
        pathTransports := pathTransports + [added];
        return false;
      }
      pathTransports := pathTransports + [tr];
      tr := added;
      ok := true;
    }

    /** reconnect and failover: dial in parallel, then adopt the winner or give it up. */
    method Reconnect(results: seq<Attempt>, setUp: bool) returns (ok: bool)
      requires ResultsOk(results)
      modifies this
      ensures View() == Next(old(View()), Redial(results, setUp))
      ensures ok == (Winner(results).Some? && setUp)
      ensures ok ==> Winner(results) == Some(tr) && pathTransports == []
      ensures !ok ==> tr == old(tr) && pathTransports == old(pathTransports)
    {
      RedialCases(View(), results);
      hide Opens, Losers, Dialled, Winner, Next, ResultsOk, Adopt;
      acquired := acquired + Opens(results);
      var winner, lost := DialParallel(results);
      LosersFrom(results, lost);
      closed := closed + lost;
      if winner.None? {
        return false;
      }
      if !setUp {
        closed := closed + multiset{winner.value};
        return false;
      }
      retired := retired + multiset{tr} + multiset(pathTransports);
      pathTransports := [];
      tr := winner.value;
      registered := {winner.value};
      ok := true;
    }

    method CloseClient()
      modifies this
      ensures View() == Next(old(View()), Close)
    {
      registered := {};
      closed := closed + multiset{tr} + multiset(pathTransports);
      pathTransports := [];
      over := true;
    }
  }

  function MigrateEvent(held: nat, socket: Option<Transport>, pathAdded: bool, probed: bool, switched: bool): Event {
    if held >= MAX_PATHS || socket.None? then MigrateRefused
    else if !pathAdded then MigrateNoPath(socket.value)
    else if !probed || !switched then MigrateNoProbe(socket.value)
    else MigrateDone(socket.value)
  }

  // Runs.

  /** How often a transport is accounted for: in use, retired or closed. */
  function Uses(s: Conn): multiset<Transport> {
    (if s.over then multiset{} else multiset{s.tr}) + multiset(s.paths) + s.retired + s.closed
  }

  /**
   Every transport ever opened is in exactly one place: in use by the live
   connection, waiting to be closed, or closed once; and the live connection is
   registered on exactly the transports in use.
   */
  ghost predicate Accounted(s: Conn) {
    && (forall t :: Uses(s)[t] == if t in s.acquired then 1 else 0)
    && (s.over ==> s.registered == {} && s.paths == [])
    && (!s.over ==> s.registered == {s.tr} + set t | t in s.paths)
    && |s.paths| <= MAX_PATHS
  }

  lemma MigrateStep(s: Conn, e: Event)
    requires Accounted(s) && Enabled(s, e) && (e.MigrateNoPath? || e.MigrateNoProbe? || e.MigrateDone?)
    ensures Accounted(Next(s, e))
  {
    var s' := Next(s, e);
    assert Uses(s') == Uses(s) + multiset{e.tr};
  }

  lemma {:induction false} DialledOpens(results: seq<Attempt>, t: Transport)
    ensures t in Dialled(results) <==> t in Opens(results)
  {
    if results == [] {
    } else {
      var init, a := results[..|results| - 1], results[|results| - 1];
      DialledOpens(init, t);
      assert Opens(results) == Opens(init) + if a.tr.Some? then {a.tr.value} else {};
    }
  }

  /** Wherever the winner goes, a redial accounts for every transport it opened. */
  lemma RedialUses(s: Conn, results: seq<Attempt>, adopt: bool)
    requires Enabled(s, Redial(results, adopt))
    ensures Uses(Next(s, Redial(results, adopt))) == Uses(s) + Dialled(results)
  {
    WinnerDialled(results);
    hide Dialled, Winner, Opens, Enabled;
  }

  lemma RedialShape(s: Conn, results: seq<Attempt>, adopt: bool)
    requires Accounted(s) && !s.over
    ensures var s' := Next(s, Redial(results, adopt));
            && !s'.over && s'.acquired == s.acquired + Opens(results) && |s'.paths| <= MAX_PATHS
            && s'.registered == {s'.tr} + set t | t in s'.paths
  {
    hide Dialled, Winner, Opens, Losers, Uses;
  }

  lemma RedialStep(s: Conn, results: seq<Attempt>, adopt: bool)
    requires Accounted(s) && Enabled(s, Redial(results, adopt))
    ensures Accounted(Next(s, Redial(results, adopt)))
  {
    var s' := Next(s, Redial(results, adopt));
    RedialUses(s, results, adopt);
    RedialShape(s, results, adopt);
    hide Dialled, Winner, Opens, Losers, Uses, Next;
    forall t ensures Uses(s')[t] == if t in s'.acquired then 1 else 0 {
      DialledOpens(results, t);
      assert Uses(s')[t] == Uses(s)[t] + Dialled(results)[t];
    }
  }

  lemma OtherSteps(s: Conn, e: Event)
    requires Accounted(s) && Enabled(s, e) && (e.MigrateRefused? || e.RetireFires? || e.Close?)
    ensures Accounted(Next(s, e))
  {
    var s' := Next(s, e);
    assert Uses(s') == Uses(s);
  }

  function Run(first: Transport, es: seq<Event>): Conn {
    if es == [] then Conn(first, [], {first}, multiset{}, multiset{}, {first}, false)
    else Next(Run(first, es[..|es| - 1]), es[|es| - 1])
  }

  ghost predicate RunOk(first: Transport, es: seq<Event>) {
    es == [] || (RunOk(first, es[..|es| - 1]) && Enabled(Run(first, es[..|es| - 1]), es[|es| - 1]))
  }

  lemma {:induction false} RunAccounted(first: Transport, es: seq<Event>)
    requires RunOk(first, es)
    ensures Accounted(Run(first, es))
  {
    if es == [] {
    } else {
      var s, e := Run(first, es[..|es| - 1]), es[|es| - 1];
      RunAccounted(first, es[..|es| - 1]);
      hide Accounted, Enabled, Next;
      match e
      case MigrateRefused => OtherSteps(s, e);
      case MigrateNoPath(_) => MigrateStep(s, e);
      case MigrateNoProbe(_) => MigrateStep(s, e);
      case MigrateDone(_) => MigrateStep(s, e);
      case Redial(results, adopt) => RedialStep(s, results, adopt);
      case RetireFires(_) => OtherSteps(s, e);
      case Close => OtherSteps(s, e);
    }
  }

  /**
   In every run of migrations, reconnects, failovers and one Close: a transport
   is closed at most once and never while the live connection is registered on
   it, a connection holds at most two extra transports, and after Close, once
   the retirements have fired, every transport has been closed exactly once.
   */
  lemma TransportLifetime(first: Transport, es: seq<Event>, t: Transport)
    requires RunOk(first, es)
    ensures var s := Run(first, es);
            && s.closed[t] <= 1
            && (t in s.registered ==> s.closed[t] == 0 && t !in s.retired)
            && |s.paths| <= 2
            && (s.over && s.retired == multiset{} && t in s.acquired ==> s.closed[t] == 1)
  {
    RunAccounted(first, es);
    var s := Run(first, es);
    hide Run;
    assert Uses(s)[t] <= 1;
    if t in s.registered && t != s.tr {
      assert t in multiset(s.paths);
    }
  }
}
