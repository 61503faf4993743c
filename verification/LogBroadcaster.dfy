/** The log broadcaster: any thread pushes entries onto a queue, clients come and go, and one loop takes the
    entries off the queue and sends each to every client registered at that moment.

    Each event is one atomic step; taking an entry and sending it are two, because pushes, registrations and
    unregistrations can come between the queue's lock and the clients' lock. */
module LogBroadcaster {
  import opened Common

  type Message = string
  type Client = nat

  /** `inbox` is all a client has ever been sent.  `pushed` (every entry so far) and `sent` (the number of
      finished broadcasts) are history. */
  datatype State = State(
    queue: seq<Message>, inHand: Option<Message>, clients: set<Client>, inbox: map<Client, seq<Message>>,
    alive: bool, pushed: seq<Message>, sent: nat)

  const INITIAL := State([], None, {}, map[], true, [], 0)

  /** `Broadcast(broken)`: sending raises for the clients in `broken`.  `Crash`: the entry in hand cannot be
      encoded, which ends the loop's thread. */
  datatype Event =
    | Push(message: Message)
    | Register(client: Client)
    | Unregister(client: Client)
    | Take
    | Broadcast(broken: set<Client>)
    | Crash

  function InboxIn(inbox: map<Client, seq<Message>>, c: Client): seq<Message> { if c in inbox then inbox[c] else [] }

  function Inbox(s: State, c: Client): seq<Message> { InboxIn(s.inbox, c) }

  function Extended(inbox: map<Client, seq<Message>>, c: Client, to: set<Client>, m: Message): seq<Message> {
    if c in to then InboxIn(inbox, c) + [m] else InboxIn(inbox, c)
  }

  function Deliver(inbox: map<Client, seq<Message>>, to: set<Client>, m: Message): map<Client, seq<Message>> {
    map c | c in inbox.Keys + to :: Extended(inbox, c, to, m)
  }

  function Next(s: State, e: Event): State {
    match e
    case Push(m) => s.(queue := s.queue + [m], pushed := s.pushed + [m])
    case Register(c) => s.(clients := s.clients + {c})
    case Unregister(c) => s.(clients := s.clients - {c})
    case Take =>
      if s.alive && s.inHand.None? && s.queue != [] then s.(queue := s.queue[1..], inHand := Some(s.queue[0])) else s
    case Broadcast(broken) =>
      if s.alive && s.inHand.Some? then
        s.(inbox := Deliver(s.inbox, s.clients - broken, s.inHand.value), clients := s.clients - broken,
           inHand := None, sent := s.sent + 1)
      else s
    case Crash => if s.inHand.Some? then s.(alive := false) else s
  }

  function Run(s: State, evs: seq<Event>): State {
    if evs == [] then s else Next(Run(s, evs[..|evs| - 1]), evs[|evs| - 1])
  }

  // ---------------------------------------------------------------------------
  // Every client sees a contiguous segment.
  // ---------------------------------------------------------------------------

  /** What the loop has in hand and on the queue. */
  function Unsent(s: State): seq<Message> { (if s.inHand.Some? then [s.inHand.value] else []) + s.queue }

  /** Nothing is lost, doubled or reordered between a push and its broadcast. */
  ghost predicate Inv(s: State) {
    && s.sent <= |s.pushed|
    && s.pushed[s.sent..] == Unsent(s)
  }

  lemma NextKeepsInv(s: State, e: Event)
    requires Inv(s)
    ensures Inv(Next(s, e)) && s.pushed <= Next(s, e).pushed && s.sent <= Next(s, e).sent
  {
  }

  lemma {:induction false} RunKeepsInv(s: State, evs: seq<Event>)
    requires Inv(s)
    ensures Inv(Run(s, evs)) && s.pushed <= Run(s, evs).pushed && s.sent <= Run(s, evs).sent
  {
    if evs == [] {
    } else {
      RunKeepsInv(s, evs[..|evs| - 1]);
      NextKeepsInv(Run(s, evs[..|evs| - 1]), evs[|evs| - 1]);
    }
  }

  /** The event ends the client's registration: it unregisters, or sending to it fails. */
  predicate Closes(e: Event, c: Client) {
    (e.Unregister? && e.client == c) || (e.Broadcast? && c in e.broken)
  }

  lemma RegisteredStep(s: State, e: Event, c: Client)
    requires Inv(s) && c in s.clients && !Closes(e, c)
    ensures c in Next(s, e).clients
    ensures Inbox(Next(s, e), c) == Inbox(s, c) + Next(s, e).pushed[s.sent..Next(s, e).sent]
  {
  }

  /** From any reachable state on, as long as a registered client neither unregisters nor fails, it is sent
      exactly the pushed entries between the broadcasts finished at the beginning and those finished at the
      end, in order and without gaps, whatever is interleaved. */
  lemma {:induction false} SegmentWhileRegistered(s: State, evs: seq<Event>, c: Client)
    requires Inv(s) && c in s.clients
    requires forall e :: e in evs ==> !Closes(e, c)
    ensures c in Run(s, evs).clients
    ensures s.sent <= Run(s, evs).sent <= |Run(s, evs).pushed|
    ensures Inbox(Run(s, evs), c) == Inbox(s, c) + Run(s, evs).pushed[s.sent..Run(s, evs).sent]
  {
    RunKeepsInv(s, evs);
    if evs == [] {
      assert s.pushed[s.sent..s.sent] == [];
    } else {
      var n := |evs| - 1;
      assert evs[n] in evs && forall e :: e in evs[..n] ==> e in evs;
      var m := Run(s, evs[..n]);
      RunKeepsInv(s, evs[..n]);
      SegmentWhileRegistered(s, evs[..n], c);
      RegisteredStep(m, evs[n], c);
      NextKeepsInv(m, evs[n]);
      Join(Inbox(s, c), m.pushed, Run(s, evs).pushed, s.sent, m.sent, Run(s, evs).sent);
    }
  }

  lemma Join(start: seq<Message>, p: seq<Message>, q: seq<Message>, i: nat, j: nat, k: nat)
    requires p <= q && i <= j <= |p| && j <= k <= |q|
    ensures start + p[i..j] + q[j..k] == start + q[i..k]
  {
  }

  /** A client that is not registered is sent nothing until it registers. */
  lemma {:induction false} NothingWhileUnregistered(s: State, evs: seq<Event>, c: Client)
    requires c !in s.clients && Register(c) !in evs
    ensures c !in Run(s, evs).clients && Inbox(Run(s, evs), c) == Inbox(s, c)
  {
    if evs == [] {
    } else {
      var n := |evs| - 1;
      assert evs[n] in evs && forall e :: e in evs[..n] ==> e in evs;
      NothingWhileUnregistered(s, evs[..n], c);
    }
  }

  /** One registration from its beginning to its end: registered after `before`, then `during` without a
      close, then a close, then `after` without a new registration.  What the client is sent in all that is
      the segment of the pushed entries from the broadcasts finished at its registration to those finished
      when it closed; the entry that failed is not part of it. */
  lemma SessionIsSegment(before: seq<Event>, during: seq<Event>, close: Event, after: seq<Event>, c: Client)
    requires c !in Run(INITIAL, before).clients
    requires (forall e :: e in during ==> !Closes(e, c)) && Closes(close, c) && Register(c) !in after
    requires close.Broadcast? ==> Run(Run(INITIAL, before + [Register(c)]), during).inHand.Some?
                                  && Run(Run(INITIAL, before + [Register(c)]), during).alive
    ensures var start, end := Run(INITIAL, before), Run(Run(INITIAL, before + [Register(c)]), during);
            var last := Run(Next(end, close), after);
            && start.sent <= end.sent <= |end.pushed|
            && c !in last.clients
            && Inbox(last, c) == Inbox(start, c) + end.pushed[start.sent..end.sent]
  {
    var start := Run(INITIAL, before);
    assert (before + [Register(c)])[..|before|] == before;
    var joined := Run(INITIAL, before + [Register(c)]);
    assert joined == Next(start, Register(c));
    RunKeepsInv(INITIAL, before);
    NextKeepsInv(start, Register(c));
    SegmentWhileRegistered(joined, during, c);
    var end := Run(joined, during);
    assert c !in Next(end, close).clients && Inbox(Next(end, close), c) == Inbox(end, c);
    NothingWhileUnregistered(Next(end, close), after, c);
  }

  /** The messages of the push events, in order. */
  function Pushes(evs: seq<Event>): seq<Message> {
    if evs == [] then []
    else Pushes(evs[..|evs| - 1]) + match evs[|evs| - 1] case Push(m) => [m] case _ => []
  }

  /** The pushed entries of a run are those of its push events, whatever else happens in between. */
  lemma {:induction false} PushedArePushes(s: State, evs: seq<Event>)
    ensures Run(s, evs).pushed == s.pushed + Pushes(evs)
  {
    if evs == [] {
    } else {
      PushedArePushes(s, evs[..|evs| - 1]);
    }
  }

  // ---------------------------------------------------------------------------
  // Delivery, and its end.
  // ---------------------------------------------------------------------------

  lemma DeadStep(s: State, e: Event)
    requires !s.alive
    ensures !Next(s, e).alive && Next(s, e).inbox == s.inbox && Next(s, e).sent == s.sent
  {
  }

  /** An entry that cannot be encoded ends the loop for good: from then on no client is sent anything, whatever is
      pushed and whoever registers. */
  lemma {:induction false} CrashIsFinal(s: State, evs: seq<Event>)
    requires !s.alive
    ensures !Run(s, evs).alive && Run(s, evs).inbox == s.inbox && Run(s, evs).sent == s.sent
  {
    if evs == [] {
    } else {
      CrashIsFinal(s, evs[..|evs| - 1]);
      DeadStep(Run(s, evs[..|evs| - 1]), evs[|evs| - 1]);
    }
  }

  /** The event at which entry number `j` is sent. */
  ghost predicate SentAt(s: State, evs: seq<Event>, j: nat, i: nat) {
    && i < |evs| && evs[i].Broadcast? && Run(s, evs[..i]).sent == j && Run(s, evs[..i + 1]).sent == j + 1
  }

  lemma RunStep(s: State, evs: seq<Event>, i: nat)
    requires i < |evs|
    ensures Run(s, evs[..i + 1]) == Next(Run(s, evs[..i]), evs[i])
  {
    assert evs[..i + 1][..i] == evs[..i];
  }

  /** Every finished broadcast had its moment ... */
  lemma {:induction false} BroadcastFound(s: State, evs: seq<Event>, j: nat)
    requires s.sent <= j < Run(s, evs).sent
    ensures exists i :: 0 <= i < |evs| && SentAt(s, evs, j, i)
  {
    if evs == [] {
    } else {
      var n := |evs| - 1;
      RunStep(s, evs, n);
      assert evs[..n + 1] == evs;
      if j < Run(s, evs[..n]).sent {
        BroadcastFound(s, evs[..n], j);
        var i :| 0 <= i < n && SentAt(s, evs[..n], j, i);
        assert evs[..n][..i] == evs[..i] && evs[..n][..i + 1] == evs[..i + 1];
        assert SentAt(s, evs, j, i);
      } else {
        assert SentAt(s, evs, j, n);
      }
    }
  }

  /** ... at which the entry went to exactly the clients registered then whose sending did not fail. */
  lemma BroadcastDelivers(s: State, broken: set<Client>, c: Client)
    requires Inv(s) && s.alive && s.inHand.Some?
    ensures s.sent < |s.pushed|
    ensures Inbox(Next(s, Broadcast(broken)), c)
            == Inbox(s, c) + if c in s.clients && c !in broken then [s.pushed[s.sent]] else []
  {
    assert s.pushed[s.sent] == s.pushed[s.sent..][0];
  }

  /** A pushed entry is delivered to the clients registered at its broadcast, unless a crash comes first: in every
      run, a pushed entry has had that broadcast, or it is in hand or queued; and then nothing holds it up but a
      crash. */
  lemma DeliveredOrCrashed(evs: seq<Event>, j: nat)
    requires j < |Run(INITIAL, evs).pushed|
    ensures var s := Run(INITIAL, evs);
            || (exists i :: 0 <= i < |evs| && SentAt(INITIAL, evs, j, i))
            || (s.sent <= j && Unsent(s) == s.pushed[s.sent..])
  {
    var s := Run(INITIAL, evs);
    RunKeepsInv(INITIAL, evs);
    if j < s.sent {
      BroadcastFound(INITIAL, evs, j);
    }
  }

  /** `n` rounds of the loop with nobody failing. */
  function Rounds(n: nat): seq<Event> { if n == 0 then [] else Rounds(n - 1) + [Take] + [Broadcast({})] }

  lemma OneRound(s: State)
    requires Inv(s) && s.alive && s.sent < |s.pushed|
    ensures var t := Next(Next(s, Take), Broadcast({}));
            t.alive && t.sent == s.sent + 1 && t.pushed == s.pushed && t.clients == s.clients
  {
    NextKeepsInv(s, Take);
  }

  lemma RoundsSplit(s: State, n: nat)
    ensures Run(s, Rounds(n + 1)) == Next(Next(Run(s, Rounds(n)), Take), Broadcast({}))
  {
    var evs := Rounds(n);
    var taken := evs + [Take];
    assert taken[..|evs|] == evs && (taken + [Broadcast({})])[..|taken|] == taken;
  }

  lemma {:induction false} RoundsProgress(s: State, n: nat)
    requires Inv(s) && s.alive && s.sent + n <= |s.pushed|
    ensures var t := Run(s, Rounds(n));
            Inv(t) && t.alive && t.sent == s.sent + n && t.pushed == s.pushed && t.clients == s.clients
  {
    RunKeepsInv(s, Rounds(n));
    if n == 0 {
    } else {
      RoundsProgress(s, n - 1);
      RoundsSplit(s, n - 1);
      OneRound(Run(s, Rounds(n - 1)));
    }
  }

  /** A live loop works off everything that has been pushed, and every client registered meanwhile gets all of it. */
  lemma LiveLoopDrains(s: State, n: nat, c: Client)
    requires Inv(s) && s.alive && s.sent + n <= |s.pushed|
    ensures Run(s, Rounds(n)).sent == s.sent + n && Run(s, Rounds(n)).alive
    ensures c in s.clients ==> Inbox(Run(s, Rounds(n)), c) == Inbox(s, c) + s.pushed[s.sent..s.sent + n]
  {
    RoundsProgress(s, n);
    NobodyCloses(n, c);
    if c in s.clients {
      SegmentOf(s, Rounds(n), n, c);
    }
  }

  lemma SegmentOf(s: State, evs: seq<Event>, n: nat, c: Client)
    requires Inv(s) && c in s.clients && forall e :: e in evs ==> !Closes(e, c)
    requires Run(s, evs).pushed == s.pushed && Run(s, evs).sent == s.sent + n
    ensures s.sent + n <= |s.pushed|
    ensures Inbox(Run(s, evs), c) == Inbox(s, c) + s.pushed[s.sent..s.sent + n]
  {
    SegmentWhileRegistered(s, evs, c);
  }

  lemma {:induction false} NobodyCloses(n: nat, c: Client)
    ensures forall e :: e in Rounds(n) ==> !Closes(e, c)
  {
    if n == 0 {
    } else {
      NobodyCloses(n - 1, c);
    }
  }

  // ---------------------------------------------------------------------------
  // The object.
  // ---------------------------------------------------------------------------

  class Broadcaster {
    var queue: seq<Message>
    var inHand: Option<Message>
    var clients: set<Client>
    var inbox: map<Client, seq<Message>>
    var alive: bool
    ghost var pushed: seq<Message>
    ghost var sent: nat

    ghost function View(): State
      reads this
    {
      State(queue, inHand, clients, inbox, alive, pushed, sent)
    }

    constructor ()
      ensures View() == INITIAL
    {
      queue, inHand, clients, inbox, alive := [], None, {}, map[], true;
      pushed, sent := [], 0;
    }

    method PushEntry(m: Message)
      modifies this
      ensures View() == Next(old(View()), Push(m))
      ensures queue == old(queue) + [m] && pushed == old(pushed) + [m] && inbox == old(inbox) && clients == old(clients)
    {
      queue, pushed := queue + [m], pushed + [m];
    }

    method RegisterClient(c: Client)
      modifies this
      ensures View() == Next(old(View()), Register(c))
      ensures clients == old(clients) + {c} && inbox == old(inbox) && queue == old(queue)
    {
      clients := clients + {c};
    }

    method UnregisterClient(c: Client)
      modifies this
      ensures View() == Next(old(View()), Unregister(c))
      ensures clients == old(clients) - {c} && inbox == old(inbox) && queue == old(queue)
    {
      clients := clients - {c};
    }

    method TakeEntry()
      modifies this
      ensures View() == Next(old(View()), Take)
      ensures alive && old(inHand).None? && old(queue) != [] ==>
                inHand == Some(old(queue)[0]) && queue == old(queue)[1..]
    {
      if alive && inHand.None? && queue != [] {
        queue, inHand := queue[1..], Some(queue[0]);
      }
    }

    method BroadcastEntry(broken: set<Client>)
      modifies this
      ensures View() == Next(old(View()), Broadcast(broken))
      ensures alive && old(inHand).Some? ==>
                && clients == old(clients) - broken && inHand.None?
                && forall c :: InboxIn(inbox, c) == InboxIn(old(inbox), c)
                               + if c in old(clients) && c !in broken then [old(inHand).value] else []
    {
      if !alive || inHand.None? { return; }
      var dead;
      inbox, dead := SendAll(inbox, clients, broken, inHand.value);
      clients := clients - dead;
      assert clients == old(clients) - broken;
      inHand, sent := None, sent + 1;
    }
  }

  lemma DeliverNone(inbox: map<Client, seq<Message>>, m: Message)
    ensures Deliver(inbox, {}, m) == inbox
  {
  }

  lemma DeliverOne(inbox: map<Client, seq<Message>>, to: set<Client>, c: Client, m: Message)
    requires c !in to
    ensures Deliver(inbox, to + {c}, m) == Deliver(inbox, to, m)[c := InboxIn(Deliver(inbox, to, m), c) + [m]]
  {
  }

  /** The loop over the clients under the lock; sending raises for the clients in `broken`. */
  method SendAll(inbox: map<Client, seq<Message>>, clients: set<Client>, broken: set<Client>, m: Message)
    returns (after: map<Client, seq<Message>>, dead: set<Client>)
    ensures after == Deliver(inbox, clients - broken, m) && dead == clients * broken
  {
    var todo := clients;
    after, dead := inbox, {};
    DeliverNone(inbox, m);
    ghost var reached: set<Client> := {};
    while todo != {}
      invariant todo <= clients
      invariant forall c :: c in reached <==> c in clients && c !in todo && c !in broken
      invariant forall c :: c in dead <==> c in clients && c !in todo && c in broken
      invariant after == Deliver(inbox, reached, m)
      decreases todo
    {
      var c :| c in todo;
      todo := todo - {c};
      if c in broken {
        dead := dead + {c};
      } else {
        DeliverOne(inbox, reached, c, m);
        after, reached := after[c := InboxIn(after, c) + [m]], reached + {c};
      }
    }
    assert reached == clients - broken && dead == clients * broken;
  }
}
