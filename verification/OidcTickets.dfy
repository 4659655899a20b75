/**
 Tickets when completions overlap. Completing an authorization request looks its ticket up in one locked
 section and deletes it in another; a code follows either way. A ticket yields another code exactly for those
 completions that had looked it up before it was deleted.
 */
module OidcTickets {
  import opened Base
  import opened OidcModel
  import C = CacheSpec
  import P = OidcProtocol

  // A request of a logged-in user that found its ticket, and goes on to delete it and make a code, once.
  datatype Completion = Completion(ticket: string, req: AuthorizeRequest, done: bool)

  datatype World = World(
    clock: nat,
    minted: set<string>,  // what GenerateString has returned so far
    tickets: C.Cache<AuthorizeRequest>,
    completions: seq<Completion>)

  datatype Step =
    | Authorize(ticket: string, req: AuthorizeRequest, evicted: Option<string>)
    | LookUp(found: string)
    | Complete(k: nat)
    | Sweep
    | Tick(time: nat)

  ghost predicate Enabled(w: World, s: Step) {
    match s
    case Authorize(ticket, _, evicted) => ticket !in w.minted && C.MayEvict(w.tickets, w.clock, ticket, evicted)
    case LookUp(found) => C.Get(w.tickets, w.clock, found).Some?
    case Complete(k) => k < |w.completions| && !w.completions[k].done
    case Sweep => true
    case Tick(time) => w.clock <= time
  }

  function Next(w: World, s: Step): World
    requires s.LookUp? ==> C.Get(w.tickets, w.clock, s.found).Some?
    requires s.Complete? ==> s.k < |w.completions|
  {
    match s
    case Authorize(ticket, req, evicted) =>
      w.(minted := w.minted + {ticket}, tickets := C.Set(w.tickets, w.clock, ticket, req, P.TICKET_TTL, evicted))
    case LookUp(found) =>
      w.(completions := w.completions + [Completion(found, C.Get(w.tickets, w.clock, found).value, false)])
    case Complete(k) =>
      w.(completions := w.completions[k := w.completions[k].(done := true)],
         tickets := C.Delete(w.tickets, w.completions[k].ticket))
    case Sweep => w.(tickets := C.Sweep(w.tickets, w.clock))
    case Tick(time) => w.(clock := time)
  }

  ghost predicate IsRun(worlds: seq<World>, steps: seq<Step>) {
    && |worlds| == |steps| + 1 && worlds[0].tickets.entries == map[] && worlds[0].completions == []
    && forall n :: 0 <= n < |steps| ==> Moves(worlds, steps, n)
  }

  ghost predicate Moves(worlds: seq<World>, steps: seq<Step>, n: nat)
    requires n < |steps| && |worlds| == |steps| + 1
  {
    Enabled(worlds[n], steps[n]) && worlds[n + 1] == Next(worlds[n], steps[n])
  }

  // Completion k has looked the ticket up and is still to delete it.
  predicate Holds(w: World, k: nat, ticket: string) {
    k < |w.completions| && !w.completions[k].done && w.completions[k].ticket == ticket
  }

  // The step completes the request of the ticket.
  predicate Completes(w: World, s: Step, ticket: string) {
    s.Complete? && Holds(w, s.k, ticket)
  }

  ghost predicate TicketsMinted(w: World) {
    && (forall t :: t in w.tickets.entries ==> t in w.minted)
    && (forall k :: 0 <= k < |w.completions| ==> w.completions[k].ticket in w.minted)
  }

  lemma {:induction false} RunMinted(worlds: seq<World>, steps: seq<Step>, n: nat)
    requires IsRun(worlds, steps) && n < |worlds|
    ensures TicketsMinted(worlds[n])
  {
    if n > 0 {
      RunMinted(worlds, steps, n - 1);
      assert Moves(worlds, steps, n - 1);
    }
  }

  predicate Spent(w: World, ticket: string) {
    ticket in w.minted && ticket !in w.tickets.entries
  }

  lemma StepSpent(w: World, s: Step, ticket: string)
    requires Enabled(w, s) && TicketsMinted(w) && (Spent(w, ticket) || Completes(w, s, ticket))
    ensures Spent(Next(w, s), ticket)
    ensures forall k: nat :: Holds(Next(w, s), k, ticket) ==> Holds(w, k, ticket) && (s.Complete? ==> k != s.k)
  {
  }

  // After step m completed the ticket nobody finds it any more; only those who had found it can complete it.
  lemma {:induction false} OnlyEarlierHolders(worlds: seq<World>, steps: seq<Step>, m: nat, n: nat, ticket: string)
    requires IsRun(worlds, steps) && m < n < |worlds| && Completes(worlds[m], steps[m], ticket)
    ensures Spent(worlds[n], ticket)
    ensures forall k: nat :: Holds(worlds[n], k, ticket) ==> Holds(worlds[m], k, ticket) && k != steps[m].k
  {
    assert Moves(worlds, steps, n - 1);
    RunMinted(worlds, steps, n - 1);
    if n > m + 1 {
      OnlyEarlierHolders(worlds, steps, m, n - 1, ticket);
    }
    StepSpent(worlds[n - 1], steps[n - 1], ticket);
  }

  // The run can go on so that the ticket yields one more code.
  ghost predicate CompletesAgain(worlds: seq<World>, steps: seq<Step>, ticket: string) {
    exists ws: seq<World>, ss: seq<Step>, n: nat ::
      IsRun(ws, ss) && worlds <= ws && steps <= ss && |steps| <= n < |ss| && Completes(ws[n], ss[n], ticket)
  }

  lemma Append(worlds: seq<World>, steps: seq<Step>, s: Step) returns (ws: seq<World>, ss: seq<Step>)
    requires IsRun(worlds, steps) && Enabled(worlds[|steps|], s)
    ensures IsRun(ws, ss) && ws == worlds + [Next(worlds[|steps|], s)] && ss == steps + [s]
  {
    ws, ss := worlds + [Next(worlds[|steps|], s)], steps + [s];
    forall n | 0 <= n < |ss|
      ensures Moves(ws, ss, n)
    {
      if n < |steps| {
        assert Moves(worlds, steps, n);
      }
    }
  }

  lemma HolderCompletes(worlds: seq<World>, steps: seq<Step>, ticket: string, k: nat)
    requires IsRun(worlds, steps) && Holds(worlds[|steps|], k, ticket)
    ensures CompletesAgain(worlds, steps, ticket)
  {
    var ws, ss := Append(worlds, steps, Complete(k));
    assert Completes(ws[|steps|], ss[|steps|], ticket);
  }

  /**
   Once step i has completed a ticket, the run can go on to complete it again exactly when another request had
   looked it up before step i deleted it, and was still to complete it.
   */
  lemma CompletesAgainExactly(worlds: seq<World>, steps: seq<Step>, i: nat, ticket: string)
    requires IsRun(worlds, steps) && i + 1 == |steps| && Completes(worlds[i], steps[i], ticket)
    ensures CompletesAgain(worlds, steps, ticket) <==> exists k: nat :: k != steps[i].k && Holds(worlds[i], k, ticket)
  {
    assert Moves(worlds, steps, i);
    if k: nat :| k != steps[i].k && Holds(worlds[i], k, ticket) {
      HolderCompletes(worlds, steps, ticket, k);
    }
    if CompletesAgain(worlds, steps, ticket) {
      var ws: seq<World>, ss: seq<Step>, n: nat :|
        IsRun(ws, ss) && worlds <= ws && steps <= ss && |steps| <= n < |ss| && Completes(ws[n], ss[n], ticket);
      OnlyEarlierHolders(ws, ss, i, n, ticket);
      assert ss[n].k != steps[i].k && Holds(worlds[i], ss[n].k, ticket);
    }
  }

  /** Any live ticket can be completed twice, by two requests that both look it up before either deletes it. */
  lemma TicketYieldsTwoCodes(worlds: seq<World>, steps: seq<Step>, ticket: string)
    returns (ws: seq<World>, ss: seq<Step>)
    requires IsRun(worlds, steps) && Enabled(worlds[|steps|], LookUp(ticket))
    ensures IsRun(ws, ss) && |ss| == |steps| + 3 && worlds <= ws && steps <= ss
    ensures Completes(ws[|steps| + 2], ss[|steps| + 2], ticket) && CompletesAgain(ws, ss, ticket)
  {
    var k := |worlds[|steps|].completions|;
    ws, ss := Append(worlds, steps, LookUp(ticket));
    ws, ss := Append(ws, ss, LookUp(ticket));
    ws, ss := Append(ws, ss, Complete(k));
    HolderCompletes(ws, ss, ticket, k + 1);
  }
}
