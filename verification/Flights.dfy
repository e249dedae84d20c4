/** The flight table of the Coupang tracker: at most one open flight per track id, and a
    done channel per flight that followers wait on. A channel is closed outside the lock,
    one step after the flight left the map.

    Board is the abstract value of the table. FlightTable is the mutable table itself.
    Ledger adds who is responsible for each flight, and LedgerInv is the accounting that
    both tracker protocols keep. */
module Flights {

  type TrackId = string
  type FlightId = nat
  type AgentId = nat

  /** The map under the mutex, the track each flight ever begun was for, and how often each
      flight's channel was closed. A flight's id is its position in tracks. */
  datatype Board = Board(open: map<TrackId, FlightId>, tracks: seq<TrackId>, closed: multiset<FlightId>)

  const EMPTY_BOARD := Board(map[], [], multiset{})

  function BoardBegin(b: Board, t: TrackId): Board {
    if t in b.open then b else b.(open := b.open[t := |b.tracks|], tracks := b.tracks + [t])
  }

  function BoardRemove(b: Board, t: TrackId): Board {
    b.(open := b.open - {t})
  }

  function BoardClose(b: Board, f: FlightId): Board {
    b.(closed := b.closed + multiset{f})
  }

  /** What a registration leader or job publishes to the followers. */
  datatype Outcome = Pending | Product(name: string) | Error(reason: string)

  class Flight {
    ghost const id: FlightId
    var done: bool
    var outcome: Outcome

    constructor (ghost id: FlightId)
      ensures this.id == id && !done && outcome == Pending
    {
      this.id, done, outcome := id, false, Pending;
    }
  }

  /** Begin and Complete for either kind of flight. Valid keeps every open flight's channel
      unclosed, so that Complete never closes a channel twice (which panics). */
  class FlightTable {
    var flights: map<TrackId, Flight>
    ghost var tracks: seq<TrackId>
    ghost var closed: multiset<FlightId>

    ghost predicate Valid()
      reads this, flights.Values
    {
      forall t :: t in flights ==>
                    && !flights[t].done
                    && flights[t].id < |tracks|
                    && tracks[flights[t].id] == t
    }

    ghost function View(): Board
      reads this
    {
      Board(map t | t in flights :: flights[t].id, tracks, closed)
    }

    constructor ()
      ensures Valid() && View() == EMPTY_BOARD
    {
      flights, tracks, closed := map[], [], multiset{};
    }

    method Begin(t: TrackId) returns (flight: Flight, leader: bool)
      requires Valid()
      modifies this
      ensures Valid()
      ensures View() == BoardBegin(old(View()), t)
      ensures leader <==> t !in old(flights)
      ensures t in flights && flights[t] == flight
      ensures leader ==> fresh(flight) && forall u :: u in old(flights) ==> u in flights && flights[u] == old(flights)[u]
      ensures !leader ==> flights == old(flights)
    {
      if t in flights {
        return flights[t], false;
      }
      flight := new Flight(|tracks|);
      flights := flights[t := flight];
      tracks := tracks + [t];
      leader := true;
      assert View().open == old(View()).open[t := |old(tracks)|];
    }

    /** Publishes the outcome and takes the flight off the map, then closes its channel.
        Without an open flight nothing happens. */
    method Complete(t: TrackId, outcome: Outcome)
      requires Valid()
      modifies this, flights.Values
      ensures Valid()
      ensures flights == old(flights) - {t}
      ensures t !in old(flights) ==> View() == old(View())
      ensures t in old(flights) ==>
                && View() == BoardClose(BoardRemove(old(View()), t), old(flights)[t].id)
                && old(flights)[t].done && old(flights)[t].outcome == outcome
      ensures forall u :: u in flights ==> flights[u].outcome == old(flights[u].outcome)
    {
      if t in flights {
        var flight := Detach(t, outcome);
        CloseChannel(flight);
      } else {
        assert flights == flights - {t};
      }
    }

    /** Under the mutex. */
    method Detach(t: TrackId, outcome: Outcome) returns (flight: Flight)
      requires Valid() && t in flights
      modifies this`flights, flights[t]
      ensures Valid() && flights == old(flights) - {t}
      ensures flight == old(flights)[t] && flight !in flights.Values && !flight.done && flight.outcome == outcome
      ensures View() == BoardRemove(old(View()), t)
      ensures forall u :: u in flights ==> flights[u].outcome == old(flights[u].outcome)
    {
      flight := flights[t];
      assert forall u :: u in flights && u != t ==> flights[u] != flight;
      flight.outcome := outcome;
      flights := flights - {t};
      assert View().open == old(View()).open - {t};
    }

    /** After the mutex: close(flight.done). */
    method CloseChannel(flight: Flight)
      requires Valid() && flight !in flights.Values && !flight.done
      modifies this`closed, flight`done
      ensures Valid() && flight.done
      ensures View() == BoardClose(old(View()), flight.id)
    {
      flight.done := true;
      closed := closed + multiset{flight.id};
    }
  }

  // ---------------------------------------------------------------------------
  // Ownership
  // ---------------------------------------------------------------------------

  /** What an agent still has to do: complete the open flight of its track, or close the
      channel of a flight it took off the map. */
  datatype Duty = Owning(track: TrackId) | ClosingIt(flight: FlightId)

  /** owners: for each open flight, who has to complete it, and which flight that agent means.
      closing: the flights off the map whose channel is still open, and who will close it.
      duties: the same, by agent. */
  datatype Owner = Owner(agent: AgentId, flight: FlightId)
  datatype Ledger = Ledger(
    board: Board, owners: map<TrackId, Owner>, closing: map<FlightId, AgentId>, duties: map<AgentId, Duty>)

  const EMPTY_LEDGER := Ledger(EMPTY_BOARD, map[], map[], map[])

  function Begin(l: Ledger, a: AgentId, t: TrackId): Ledger {
    if t in l.board.open then l
    else Ledger(BoardBegin(l.board, t), l.owners[t := Owner(a, |l.board.tracks|)], l.closing, l.duties[a := Owning(t)])
  }

  /** The deferred path: the leader leaves its flight to the job it started. */
  function HandOver(l: Ledger, a: AgentId, t: TrackId, job: AgentId): Ledger {
    if t in l.owners then
      l.(owners := l.owners[t := Owner(job, l.owners[t].flight)], duties := (l.duties - {a})[job := Owning(t)])
    else l
  }

  /** The locked half of completion. It goes by track id alone: the caller does not say
      which flight it means. */
  function Remove(l: Ledger, a: AgentId, t: TrackId): Ledger {
    if t in l.board.open then
      Ledger(BoardRemove(l.board, t), l.owners - {t}, l.closing[l.board.open[t] := a],
             l.duties[a := ClosingIt(l.board.open[t])])
    else l
  }

  /** The unlocked half: close(flight.done). */
  function Close(l: Ledger, a: AgentId, f: FlightId): Ledger {
    Ledger(BoardClose(l.board, f), l.owners, l.closing - {f}, l.duties - {a})
  }

  predicate IsOpen(b: Board, f: FlightId) {
    f < |b.tracks| && b.tracks[f] in b.open && b.open[b.tracks[f]] == f
  }

  predicate HasDuty(l: Ledger, a: AgentId, duty: Duty) {
    a in l.duties && l.duties[a] == duty
  }

  /** Every open flight has exactly one owner, who means that very flight. */
  ghost predicate OwnersMatch(l: Ledger) {
    && l.owners.Keys == l.board.open.Keys
    && (forall t :: t in l.owners ==> l.owners[t].flight == l.board.open[t])
    && (forall t :: t in l.owners ==> HasDuty(l, l.owners[t].agent, Owning(t)))
    && (forall a, t :: HasDuty(l, a, Owning(t)) ==> t in l.owners && l.owners[t].agent == a)
  }

  /** Every flight off the map whose channel is open has exactly one agent to close it. */
  ghost predicate ClosersMatch(l: Ledger) {
    && (forall f :: f in l.closing ==> HasDuty(l, l.closing[f], ClosingIt(f)))
    && (forall a, f :: HasDuty(l, a, ClosingIt(f)) ==> f in l.closing && l.closing[f] == a)
  }

  /** Every flight ever begun is open, or off the map and not yet closed, or closed exactly once. */
  ghost predicate Accounted(l: Ledger) {
    && (forall t :: t in l.board.open ==> IsOpen(l.board, l.board.open[t]) && l.board.tracks[l.board.open[t]] == t)
    && (forall f :: f in l.closing ==> f < |l.board.tracks| && !IsOpen(l.board, f) && f !in l.board.closed)
    && (forall f :: f in l.board.closed ==>
          f < |l.board.tracks| && !IsOpen(l.board, f) && l.board.closed[f] == 1)
    && (forall f: FlightId :: f < |l.board.tracks| ==>
          IsOpen(l.board, f) || f in l.closing || f in l.board.closed)
  }

  ghost predicate LedgerInv(l: Ledger) {
    OwnersMatch(l) && ClosersMatch(l) && Accounted(l)
  }

  /** Who has to complete or close which flight after each operation. */
  lemma BeginDuties(l: Ledger, a: AgentId, t: TrackId)
    requires t !in l.board.open
    ensures forall b, d :: HasDuty(Begin(l, a, t), b, d) <==> if b == a then d == Owning(t) else HasDuty(l, b, d)
  {}

  lemma HandOverDuties(l: Ledger, a: AgentId, t: TrackId, job: AgentId)
    requires OwnersMatch(l) && HasDuty(l, a, Owning(t))
    ensures forall b, d :: HasDuty(HandOver(l, a, t, job), b, d)
              <==> if b == job then d == Owning(t) else b != a && HasDuty(l, b, d)
  {}

  lemma RemoveDuties(l: Ledger, a: AgentId, t: TrackId)
    requires OwnersMatch(l) && HasDuty(l, a, Owning(t))
    ensures t in l.board.open
    ensures forall b, d :: HasDuty(Remove(l, a, t), b, d)
              <==> if b == a then d == ClosingIt(l.board.open[t]) else HasDuty(l, b, d)
  {}

  lemma CloseDuties(l: Ledger, a: AgentId, f: FlightId)
    ensures forall b, d :: HasDuty(Close(l, a, f), b, d) <==> b != a && HasDuty(l, b, d)
  {}

  lemma {:induction false} BeginAccounts(l: Ledger, a: AgentId, t: TrackId)
    requires Accounted(l) && t !in l.board.open
    ensures Accounted(Begin(l, a, t))
  {
    var m := Begin(l, a, t);
    var n := |l.board.tracks|;
    forall f: FlightId ensures IsOpen(m.board, f) <==> IsOpen(l.board, f) || f == n {
      if f < n {
        assert m.board.tracks[f] == l.board.tracks[f];
      }
    }
  }

  lemma BeginMatches(l: Ledger, a: AgentId, t: TrackId)
    requires OwnersMatch(l) && a !in l.duties && t !in l.board.open
    ensures OwnersMatch(Begin(l, a, t))
  {
    var m := Begin(l, a, t);
    assert HasDuty(m, a, Owning(t));
    forall b, u ensures HasDuty(m, b, Owning(u)) <==> (b != a && HasDuty(l, b, Owning(u))) || (b == a && u == t) {}
  }

  lemma BeginClosers(l: Ledger, a: AgentId, t: TrackId)
    requires ClosersMatch(l) && a !in l.duties && t !in l.board.open
    ensures ClosersMatch(Begin(l, a, t))
  {
    forall b, f ensures HasDuty(Begin(l, a, t), b, ClosingIt(f)) <==> HasDuty(l, b, ClosingIt(f)) {}
  }

  lemma BeginKeeps(l: Ledger, a: AgentId, t: TrackId)
    requires LedgerInv(l) && a !in l.duties
    ensures LedgerInv(Begin(l, a, t))
  {
    if t !in l.board.open {
      BeginAccounts(l, a, t);
      BeginMatches(l, a, t);
      BeginClosers(l, a, t);
    }
  }

  lemma HandOverMatches(l: Ledger, a: AgentId, t: TrackId, job: AgentId)
    requires OwnersMatch(l) && HasDuty(l, a, Owning(t)) && job !in l.duties
    ensures OwnersMatch(HandOver(l, a, t, job))
  {
    var m := HandOver(l, a, t, job);
    assert HasDuty(m, job, Owning(t));
    forall b, u ensures HasDuty(m, b, Owning(u)) <==> (b != a && b != job && HasDuty(l, b, Owning(u))) || (b == job && u == t) {}
  }

  lemma HandOverClosers(l: Ledger, a: AgentId, t: TrackId, job: AgentId)
    requires OwnersMatch(l) && ClosersMatch(l) && HasDuty(l, a, Owning(t)) && job !in l.duties
    ensures ClosersMatch(HandOver(l, a, t, job))
  {
    forall b, f ensures HasDuty(HandOver(l, a, t, job), b, ClosingIt(f)) <==> HasDuty(l, b, ClosingIt(f)) {}
  }

  lemma HandOverKeeps(l: Ledger, a: AgentId, t: TrackId, job: AgentId)
    requires LedgerInv(l) && HasDuty(l, a, Owning(t)) && job !in l.duties
    ensures LedgerInv(HandOver(l, a, t, job))
  {
    HandOverMatches(l, a, t, job);
    HandOverClosers(l, a, t, job);
    assert HandOver(l, a, t, job).board == l.board && HandOver(l, a, t, job).closing == l.closing;
  }

  lemma {:induction false} RemoveAccounts(l: Ledger, a: AgentId, t: TrackId)
    requires Accounted(l)
    ensures Accounted(Remove(l, a, t))
  {
    var m := Remove(l, a, t);
    assert forall f: FlightId :: IsOpen(m.board, f) <==> IsOpen(l.board, f) && l.board.tracks[f] != t;
  }

  lemma RemoveMatches(l: Ledger, a: AgentId, t: TrackId)
    requires OwnersMatch(l) && HasDuty(l, a, Owning(t))
    ensures OwnersMatch(Remove(l, a, t))
  {
    forall b, u ensures HasDuty(Remove(l, a, t), b, Owning(u)) <==> b != a && HasDuty(l, b, Owning(u)) {}
  }

  lemma RemoveClosers(l: Ledger, a: AgentId, t: TrackId)
    requires OwnersMatch(l) && ClosersMatch(l) && Accounted(l) && HasDuty(l, a, Owning(t))
    ensures ClosersMatch(Remove(l, a, t))
  {
    var m, f := Remove(l, a, t), l.board.open[t];
    assert f !in l.closing;
    assert HasDuty(m, a, ClosingIt(f));
    forall b, g ensures HasDuty(m, b, ClosingIt(g)) <==> (b != a && HasDuty(l, b, ClosingIt(g))) || (b == a && g == f) {}
  }

  /** Completion by track id takes the owner's own flight off the map. */
  lemma RemoveKeeps(l: Ledger, a: AgentId, t: TrackId)
    requires LedgerInv(l) && HasDuty(l, a, Owning(t))
    ensures LedgerInv(Remove(l, a, t))
    ensures HasDuty(Remove(l, a, t), a, ClosingIt(l.owners[t].flight))
  {
    RemoveAccounts(l, a, t);
    RemoveMatches(l, a, t);
    RemoveClosers(l, a, t);
  }

  lemma {:induction false} CloseAccounts(l: Ledger, a: AgentId, f: FlightId)
    requires Accounted(l) && f in l.closing
    ensures Accounted(Close(l, a, f))
  {
    var m := Close(l, a, f);
    assert forall g: FlightId :: IsOpen(m.board, g) <==> IsOpen(l.board, g);
  }

  lemma CloseMatches(l: Ledger, a: AgentId, f: FlightId)
    requires OwnersMatch(l) && ClosersMatch(l) && HasDuty(l, a, ClosingIt(f))
    ensures OwnersMatch(Close(l, a, f)) && ClosersMatch(Close(l, a, f))
  {
    forall b, d ensures HasDuty(Close(l, a, f), b, d) <==> b != a && HasDuty(l, b, d) {}
  }

  lemma CloseKeeps(l: Ledger, a: AgentId, f: FlightId)
    requires LedgerInv(l) && HasDuty(l, a, ClosingIt(f))
    ensures LedgerInv(Close(l, a, f))
  {
    assert f in l.closing;
    CloseAccounts(l, a, f);
    CloseMatches(l, a, f);
  }

  /** Once nobody has a duty left, every flight ever begun was closed exactly once. */
  lemma {:induction false} QuietMeansClosedOnce(l: Ledger, f: FlightId)
    requires LedgerInv(l)
    ensures l.board.closed[f] <= 1
    ensures l.duties == map[] && f < |l.board.tracks| ==> l.board.closed[f] == 1
  {
    if l.duties == map[] && f < |l.board.tracks| {
      assert IsOpen(l.board, f) || f in l.closing || f in l.board.closed;
    }
  }
}
