/** Request and WebSocket slots of the Controller's HTTP server: two bounded
    semaphores, one flag per handler thread, and the hand-over of a request slot
    when a connection becomes a WebSocket. */
module Slots {

  // ----- The state ----------------------------------------------------------------------

  datatype Limits = Limits(requests: nat, websockets: nat)

  /** One accepted connection: its thread has started, the thread's `released`
      flag, a WebSocket slot is held, and the thread has left its request. */
  datatype Handler = Handler(started: bool, released: bool, websocket: bool, left: bool)

  /** `accepted` and `freed` record which connections took and gave back a request slot. */
  datatype Server = Server(requestFree: nat, websocketFree: nat, handlers: map<nat, Handler>,
                           accepted: set<nat>, freed: multiset<nat>)

  datatype Step =
    | Accept(h: nat)
    | StartFails(h: nat)
    | Start(h: nat)
    | AcquireWebsocket(h: nat)
    | HandOver(h: nat)
    | ReleaseWebsocket(h: nat)
    | Leave(h: nat)
    | Exit(h: nat)

  function Initial(limits: Limits): Server {
    Server(limits.requests, limits.websockets, map[], {}, multiset{})
  }

  /** What the program order allows; connection numbers are never reused. */
  predicate Enabled(s: Server, step: Step) {
    match step
    case Accept(h) => h !in s.accepted
    case StartFails(h) => h in s.handlers && !s.handlers[h].started
    case Start(h) => h in s.handlers && !s.handlers[h].started
    case AcquireWebsocket(h) =>
      h in s.handlers && s.handlers[h].started && !s.handlers[h].left && !s.handlers[h].websocket
    case HandOver(h) => h in s.handlers && s.handlers[h].websocket
    case ReleaseWebsocket(h) => h in s.handlers && s.handlers[h].websocket
    case Leave(h) => h in s.handlers && s.handlers[h].started && !s.handlers[h].left && !s.handlers[h].websocket
    case Exit(h) => h in s.handlers && s.handlers[h].left
  }

  /** Releasing a bounded semaphore: at its bound it raises and stays. */
  function Released(free: nat, bound: nat): (after: nat)
    ensures free <= bound ==> after <= bound && after - free == (if free == bound then 0 else 1)
  {
    if free < bound then free + 1 else free
  }

  function Free(limits: Limits, s: Server, h: nat): Server {
    s.(requestFree := Released(s.requestFree, limits.requests), freed := s.freed + multiset{h})
  }

  function Next(limits: Limits, s: Server, step: Step): Server {
    if !Enabled(s, step) then s
    else
      match step
      case Accept(h) =>
        if s.requestFree == 0 then s
        else s.(requestFree := s.requestFree - 1, handlers := s.handlers[h := Handler(false, false, false, false)],
                accepted := s.accepted + {h})
      case StartFails(h) => Free(limits, s, h).(handlers := s.handlers - {h})
      case Start(h) => s.(handlers := s.handlers[h := s.handlers[h].(started := true, released := false)])
      case AcquireWebsocket(h) =>
        if s.websocketFree == 0 then s
        else s.(websocketFree := s.websocketFree - 1, handlers := s.handlers[h := s.handlers[h].(websocket := true)])
      case HandOver(h) =>
        if s.handlers[h].released then s
        else Free(limits, s, h).(handlers := s.handlers[h := s.handlers[h].(released := true)])
      case ReleaseWebsocket(h) =>
        s.(websocketFree := Released(s.websocketFree, limits.websockets),
           handlers := s.handlers[h := s.handlers[h].(websocket := false)])
      case Leave(h) =>
        (if s.handlers[h].released then s
         else Free(limits, s, h)).(handlers := s.handlers[h := s.handlers[h].(left := true)])
      case Exit(h) => s.(handlers := s.handlers - {h})
  }

  function Run(limits: Limits, s: Server, steps: seq<Step>): Server {
    if steps == [] then s else Next(limits, Run(limits, s, steps[..|steps| - 1]), steps[|steps| - 1])
  }

  // ----- The server as the program runs it ---------------------------------------------------

  class ControllerHTTPServer {
    const limits: Limits
    var requestSlots: nat
    var websocketSlots: nat
    var handlers: map<nat, Handler>
    ghost var accepted: set<nat>
    ghost var freed: multiset<nat>

    ghost function Contents(): Server
      reads this
    {
      Server(requestSlots, websocketSlots, handlers, accepted, freed)
    }

    constructor (limits: Limits)
      ensures this.limits == limits && Contents() == Initial(limits)
    {
      this.limits := limits;
      requestSlots, websocketSlots, handlers, accepted, freed := limits.requests, limits.websockets, map[], {},
        multiset{};
    }

    method ReleaseRequestSlot(h: nat)
      modifies this
      ensures Contents() == Free(limits, old(Contents()), h)
    {
      if requestSlots < limits.requests { requestSlots := requestSlots + 1; }
      freed := freed + multiset{h};
    }

    /** Up to the start of the thread; false is the 503 answer. */
    method ProcessRequest(h: nat) returns (taken: bool)
      requires Enabled(Contents(), Accept(h))
      modifies this
      ensures taken <==> old(requestSlots) > 0
      ensures Contents() == Next(limits, old(Contents()), Accept(h))
    {
      if requestSlots == 0 { return false; }
      requestSlots := requestSlots - 1;
      handlers := handlers[h := Handler(false, false, false, false)];
      accepted := accepted + {h};
      taken := true;
    }

    method ThreadStart(h: nat, raises: bool)
      requires Enabled(Contents(), Start(h))
      modifies this
      ensures Contents() == Next(limits, old(Contents()), if raises then StartFails(h) else Start(h))
    {
      if raises {
        ReleaseRequestSlot(h);
        handlers := handlers - {h};
      } else {
        handlers := handlers[h := handlers[h].(started := true, released := false)];
      }
    }

    method AcquireWebsocketSlot(h: nat) returns (ok: bool)
      requires Enabled(Contents(), AcquireWebsocket(h))
      modifies this
      ensures ok <==> old(websocketSlots) > 0
      ensures Contents() == Next(limits, old(Contents()), AcquireWebsocket(h))
    {
      if websocketSlots == 0 { return false; }
      websocketSlots := websocketSlots - 1;
      handlers := handlers[h := handlers[h].(websocket := true)];
      ok := true;
    }

    /** False when the source raises because the slot was given back before. */
    method ReleaseRequestSlotForWebsocket(h: nat) returns (ok: bool)
      requires Enabled(Contents(), HandOver(h))
      modifies this
      ensures ok <==> !old(handlers)[h].released
      ensures Contents() == Next(limits, old(Contents()), HandOver(h))
    {
      if handlers[h].released { return false; }
      ReleaseRequestSlot(h);
      handlers := handlers[h := handlers[h].(released := true)];
      ok := true;
    }

    method ReleaseWebsocketSlot(h: nat)
      requires Enabled(Contents(), ReleaseWebsocket(h))
      modifies this
      ensures Contents() == Next(limits, old(Contents()), ReleaseWebsocket(h))
    {
      if websocketSlots < limits.websockets { websocketSlots := websocketSlots + 1; }
      handlers := handlers[h := handlers[h].(websocket := false)];
    }

    /** The `finally` of the handler thread. */
    method LeaveRequest(h: nat)
      requires Enabled(Contents(), Leave(h))
      modifies this
      ensures Contents() == Next(limits, old(Contents()), Leave(h))
    {
      if !handlers[h].released {
        ReleaseRequestSlot(h);
      }
      handlers := handlers[h := handlers[h].(left := true)];
    }
  }

  // ----- Conservation ---------------------------------------------------------------------------

  predicate HoldsRequest(hd: Handler) { !hd.released && !hd.left }

  ghost function RequestHolders(s: Server): set<nat> {
    set h | h in s.handlers && HoldsRequest(s.handlers[h])
  }

  ghost function WebsocketHolders(s: Server): set<nat> {
    set h | h in s.handlers && s.handlers[h].websocket
  }

  predicate WellFormed(hd: Handler) {
    (!hd.started ==> !hd.released && !hd.websocket && !hd.left) && (hd.left ==> !hd.websocket)
  }

  /** How often a connection has given back its request slot. */
  predicate FreedRight(s: Server, h: nat) {
    s.freed[h] == if h in s.accepted && !(h in s.handlers && HoldsRequest(s.handlers[h])) then 1 else 0
  }

  ghost predicate Conserved(limits: Limits, s: Server) {
    && s.requestFree + |RequestHolders(s)| == limits.requests
    && s.websocketFree + |WebsocketHolders(s)| == limits.websockets
    && s.handlers.Keys <= s.accepted
    && (forall h :: h in s.handlers ==> WellFormed(s.handlers[h]))
    && (forall h: nat :: FreedRight(s, h))
  }

  lemma AddOne(small: set<nat>, big: set<nat>, h: nat)
    requires h !in small && big == small + {h}
    ensures |big| == |small| + 1
  {
  }

  /** A step of `h` changes only the membership of `h` among the holders. */
  lemma HoldersAround(s: Server, after: Server, h: nat)
    requires forall o :: o != h ==> (o in s.handlers <==> o in after.handlers)
    requires forall o :: o != h && o in s.handlers ==> after.handlers[o] == s.handlers[o]
    ensures |RequestHolders(after)| - |RequestHolders(s)|
         == (if h in RequestHolders(after) then 1 else 0) - (if h in RequestHolders(s) then 1 else 0)
    ensures |WebsocketHolders(after)| - |WebsocketHolders(s)|
         == (if h in WebsocketHolders(after) then 1 else 0) - (if h in WebsocketHolders(s) then 1 else 0)
  {
    SameButOne(RequestHolders(s), RequestHolders(after), h);
    SameButOne(WebsocketHolders(s), WebsocketHolders(after), h);
  }

  lemma SameButOne(a: set<nat>, b: set<nat>, h: nat)
    requires a - {h} == b - {h}
    ensures |b| - |a| == (if h in b then 1 else 0) - (if h in a then 1 else 0)
  {
    if h in a { AddOne(a - {h}, a, h); }
    if h in b { AddOne(b - {h}, b, h); }
    assert h !in a ==> a - {h} == a;
    assert h !in b ==> b - {h} == b;
  }

  lemma HolderRoom(limits: Limits, s: Server, h: nat)
    requires Conserved(limits, s)
    ensures h in RequestHolders(s) ==> s.requestFree < limits.requests
    ensures h in WebsocketHolders(s) ==> s.websocketFree < limits.websockets
  {
    if h in RequestHolders(s) { AddOne(RequestHolders(s) - {h}, RequestHolders(s), h); }
    if h in WebsocketHolders(s) { AddOne(WebsocketHolders(s) - {h}, WebsocketHolders(s), h); }
  }

  lemma StepKeepsFreed(limits: Limits, s: Server, step: Step, h: nat)
    requires Conserved(limits, s)
    ensures FreedRight(Next(limits, s, step), h)
  {
    hide RequestHolders, WebsocketHolders;
    assert FreedRight(s, h);
    assert FreedRight(s, step.h);
  }

  /** A step concerns one connection. */
  lemma OneHandlerChanges(limits: Limits, s: Server, step: Step, o: nat)
    requires o != step.h
    ensures var after := Next(limits, s, step);
            && (o in s.handlers <==> o in after.handlers)
            && (o in s.handlers ==> after.handlers[o] == s.handlers[o])
  {
  }

  /** What a step takes or gives back is what its connection holds before and after. */
  lemma StepMovesSlots(limits: Limits, s: Server, step: Step)
    requires step.h in RequestHolders(s) ==> s.requestFree < limits.requests
    requires step.h in WebsocketHolders(s) ==> s.websocketFree < limits.websockets
    requires Conserved(limits, s)
    ensures var after, h := Next(limits, s, step), step.h;
            && after.requestFree + (if h in RequestHolders(after) then 1 else 0)
               == s.requestFree + (if h in RequestHolders(s) then 1 else 0)
            && after.websocketFree + (if h in WebsocketHolders(after) then 1 else 0)
               == s.websocketFree + (if h in WebsocketHolders(s) then 1 else 0)
  {
  }

  lemma StepKeepsForm(limits: Limits, s: Server, step: Step)
    requires Conserved(limits, s)
    ensures var after := Next(limits, s, step);
            after.handlers.Keys <= after.accepted && forall h :: h in after.handlers ==> WellFormed(after.handlers[h])
  {
    hide RequestHolders, WebsocketHolders;
    assert FreedRight(s, step.h);
  }

  lemma StepConserves(limits: Limits, s: Server, step: Step)
    requires Conserved(limits, s)
    ensures Conserved(limits, Next(limits, s, step))
  {
    hide FreedRight, Next, RequestHolders, WebsocketHolders, WellFormed;
    forall o: nat | o != step.h
      ensures o in s.handlers <==> o in Next(limits, s, step).handlers
      ensures o in s.handlers ==> Next(limits, s, step).handlers[o] == s.handlers[o]
    {
      OneHandlerChanges(limits, s, step, o);
    }
    HoldersAround(s, Next(limits, s, step), step.h);
    HolderRoom(limits, s, step.h);
    StepMovesSlots(limits, s, step);
    StepKeepsForm(limits, s, step);
    forall h: nat
      ensures FreedRight(Next(limits, s, step), h)
    {
      StepKeepsFreed(limits, s, step, h);
    }
  }

  /** In every interleaving free slots and holders add up to the limits, for both
      kinds, and no connection gives back its request slot twice. */
  lemma {:induction false} SlotsConserved(limits: Limits, steps: seq<Step>)
    ensures Conserved(limits, Run(limits, Initial(limits), steps))
  {
    if steps == [] {
      assert RequestHolders(Initial(limits)) == {} && WebsocketHolders(Initial(limits)) == {};
    } else {
      SlotsConserved(limits, steps[..|steps| - 1]);
      StepConserves(limits, Run(limits, Initial(limits), steps[..|steps| - 1]), steps[|steps| - 1]);
    }
  }

  /** A connection that is over has given back its request slot exactly once, and
      one that still holds it has not. */
  lemma FreedExactlyOnce(limits: Limits, steps: seq<Step>, h: nat)
    ensures var s := Run(limits, Initial(limits), steps);
            && (h in s.accepted && h !in s.handlers ==> s.freed[h] == 1)
            && (h in s.handlers && HoldsRequest(s.handlers[h]) ==> s.freed[h] == 0)
            && s.freed[h] <= 1
  {
    SlotsConserved(limits, steps);
    assert FreedRight(Run(limits, Initial(limits), steps), h);
  }

  predicate GivesBackRequestSlot(s: Server, step: Step) {
    step.StartFails? || ((step.HandOver? || step.Leave?) && step.h in s.handlers && !s.handlers[step.h].released)
  }

  /** Neither semaphore is ever released beyond its bound. */
  lemma NeverOverReleased(limits: Limits, steps: seq<Step>, step: Step)
    requires Enabled(Run(limits, Initial(limits), steps), step)
    ensures var s := Run(limits, Initial(limits), steps);
            && (GivesBackRequestSlot(s, step) ==> s.requestFree < limits.requests)
            && (step.ReleaseWebsocket? ==> s.websocketFree < limits.websockets)
  {
    SlotsConserved(limits, steps);
    var s := Run(limits, Initial(limits), steps);
    HolderRoom(limits, s, step.h);
    if step.h in s.handlers { assert WellFormed(s.handlers[step.h]); }
  }

  // ----- Live handlers ------------------------------------------------------------------------------

  /** Threads that hold no slot any more but have not ended. */
  ghost function Draining(s: Server): set<nat> {
    set h | h in s.handlers && !HoldsRequest(s.handlers[h]) && !s.handlers[h].websocket
  }

  lemma UnionSize(a: set<nat>, b: set<nat>)
    ensures |a + b| + |a * b| == |a| + |b|
  {
  }

  /** Exactly how many handlers are alive: the slots in use, less the connections
      that hold one of each, plus the threads that are draining. */
  lemma LiveHandlers(limits: Limits, steps: seq<Step>)
    ensures var s := Run(limits, Initial(limits), steps);
            |s.handlers.Keys| == (limits.requests - s.requestFree) + (limits.websockets - s.websocketFree)
                                 - |RequestHolders(s) * WebsocketHolders(s)| + |Draining(s)|
  {
    SlotsConserved(limits, steps);
    var s := Run(limits, Initial(limits), steps);
    var r, w, d := RequestHolders(s), WebsocketHolders(s), Draining(s);
    assert s.handlers.Keys == (r + w) + d;
    UnionSize(r, w);
    UnionSize(r + w, d);
    assert (r + w) * d == {};
  }

  /** Handlers that hold a slot never exceed the sum of the limits; all live ones
      exceed it exactly when more threads drain than slots are free or doubly held. */
  lemma HoldersWithinLimits(limits: Limits, steps: seq<Step>)
    ensures var s := Run(limits, Initial(limits), steps);
            && |RequestHolders(s) + WebsocketHolders(s)| <= limits.requests + limits.websockets
            && (|s.handlers.Keys| > limits.requests + limits.websockets
                <==> |Draining(s)| > s.requestFree + s.websocketFree + |RequestHolders(s) * WebsocketHolders(s)|)
  {
    SlotsConserved(limits, steps);
    LiveHandlers(limits, steps);
    var s := Run(limits, Initial(limits), steps);
    UnionSize(RequestHolders(s), WebsocketHolders(s));
  }

  /** The life of connection `h` as a WebSocket, up to its last slot. */
  function WebsocketLife(h: nat): seq<Step> {
    [Accept(h), Start(h), AcquireWebsocket(h), HandOver(h), ReleaseWebsocket(h)]
  }

  function Lives(n: nat): seq<Step> {
    if n == 0 then [] else Lives(n - 1) + WebsocketLife(n - 1)
  }

  lemma RunLast(limits: Limits, s: Server, steps: seq<Step>, last: Step)
    ensures Run(limits, s, steps + [last]) == Next(limits, Run(limits, s, steps), last)
  {
    assert (steps + [last])[..|steps|] == steps;
  }

  lemma {:induction false} RunConcat(limits: Limits, s: Server, a: seq<Step>, b: seq<Step>)
    ensures Run(limits, s, a + b) == Run(limits, Run(limits, s, a), b)
  {
    if b == [] {
      assert a + b == a;
    } else {
      hide Run, Next;
      var front, last := b[..|b| - 1], b[|b| - 1];
      RunConcat(limits, s, a, front);
      assert b == front + [last];
      RunLast(limits, Run(limits, s, a), front, last);
      assert a + b == (a + front) + [last];
      RunLast(limits, s, a + front, last);
    }
  }

  lemma RunFive(limits: Limits, s: Server, a: Step, b: Step, c: Step, d: Step, e: Step)
    ensures Run(limits, s, [a, b, c, d, e])
         == Next(limits, Next(limits, Next(limits, Next(limits, Next(limits, s, a), b), c), d), e)
  {
    hide Next;
    RunLast(limits, s, [], a);
    RunLast(limits, s, [a], b);
    RunLast(limits, s, [a, b], c);
    RunLast(limits, s, [a, b, c], d);
    RunLast(limits, s, [a, b, c, d], e);
    assert [] + [a] == [a] && [a] + [b] == [a, b] && [a, b] + [c] == [a, b, c];
    assert [a, b, c] + [d] == [a, b, c, d] && [a, b, c, d] + [e] == [a, b, c, d, e];
  }

  lemma OneLife(limits: Limits, s: Server, h: nat)
    requires s.requestFree == limits.requests >= 1 && s.websocketFree == limits.websockets >= 1
    requires h !in s.accepted && h !in s.handlers
    ensures var after := Run(limits, s, WebsocketLife(h));
            && after.requestFree == limits.requests && after.websocketFree == limits.websockets
            && after.accepted == s.accepted + {h}
            && after.handlers == s.handlers[h := Handler(true, true, false, false)]
  {
    RunFive(limits, s, Accept(h), Start(h), AcquireWebsocket(h), HandOver(h), ReleaseWebsocket(h));
  }

  // ----- A connection from accept to end ------------------------------------------------------------

  /** Nothing of a connection is left but the record that it was accepted and gave
      back its request slot. */
  ghost predicate Gone(s: Server, after: Server, h: nat) {
    && after.requestFree == s.requestFree && after.websocketFree == s.websocketFree && after.handlers == s.handlers
    && after.accepted == s.accepted + {h} && after.freed == s.freed + multiset{h}
  }

  lemma RunFour(limits: Limits, s: Server, a: Step, b: Step, c: Step, d: Step)
    ensures Run(limits, s, [a, b, c, d]) == Next(limits, Next(limits, Next(limits, Next(limits, s, a), b), c), d)
  {
    hide Next;
    RunLast(limits, s, [], a);
    RunLast(limits, s, [a], b);
    RunLast(limits, s, [a, b], c);
    RunLast(limits, s, [a, b, c], d);
    assert [] + [a] == [a] && [a] + [b] == [a, b] && [a, b] + [c] == [a, b, c];
    assert [a, b, c] + [d] == [a, b, c, d];
  }

  /** A plain connection that finds a slot takes one while it lives and leaves
      none taken, whatever else is going on. */
  lemma PlainConnectionEnds(limits: Limits, s: Server, h: nat)
    requires 0 < s.requestFree <= limits.requests && h !in s.accepted && h !in s.handlers
    ensures Gone(s, Run(limits, s, [Accept(h), Start(h), Leave(h), Exit(h)]), h)
    ensures Next(limits, s, Accept(h)).requestFree == s.requestFree - 1
  {
    RunFour(limits, s, Accept(h), Start(h), Leave(h), Exit(h));
    assert s.handlers[h := Handler(true, false, false, true)] - {h} == s.handlers;
  }

  /** So does one whose thread cannot be started. */
  lemma UnstartedConnectionEnds(limits: Limits, s: Server, h: nat)
    requires 0 < s.requestFree <= limits.requests && h !in s.accepted && h !in s.handlers
    ensures Gone(s, Next(limits, Next(limits, s, Accept(h)), StartFails(h)), h)
  {
    assert s.handlers[h := Handler(false, false, false, false)] - {h} == s.handlers;
  }

  /** An open WebSocket connection: it holds the other kind of slot and has given
      its request slot back. */
  ghost predicate Opened(s: Server, open: Server, h: nat) {
    && open.requestFree == s.requestFree && open.websocketFree == s.websocketFree - 1
    && open.handlers == s.handlers[h := Handler(true, true, true, false)]
    && open.accepted == s.accepted + {h} && open.freed == s.freed + multiset{h}
  }

  lemma WebsocketOpens(limits: Limits, s: Server, h: nat)
    requires 0 < s.requestFree <= limits.requests && 0 < s.websocketFree <= limits.websockets
    requires h !in s.accepted && h !in s.handlers
    ensures Opened(s, Next(limits, Next(limits, Next(limits, Next(limits, s, Accept(h)), Start(h)),
                                        AcquireWebsocket(h)), HandOver(h)), h)
  {
  }

  lemma WebsocketCloses(limits: Limits, s: Server, open: Server, h: nat)
    requires Opened(s, open, h) && 0 < s.websocketFree <= limits.websockets && h !in s.handlers
    ensures Gone(s, Next(limits, Next(limits, Next(limits, open, ReleaseWebsocket(h)), Leave(h)), Exit(h)), h)
  {
    assert s.handlers[h := Handler(true, true, false, true)] - {h} == s.handlers;
  }

  /** A WebSocket connection gives its request slot back while it holds the other
      kind, and leaves neither taken. */
  lemma WebsocketConnectionEnds(limits: Limits, s: Server, h: nat)
    requires 0 < s.requestFree <= limits.requests && 0 < s.websocketFree <= limits.websockets
    requires h !in s.accepted && h !in s.handlers
    ensures var open := Next(limits, Next(limits, Next(limits, Next(limits, s, Accept(h)), Start(h)),
                                          AcquireWebsocket(h)), HandOver(h));
            && Opened(s, open, h)
            && Gone(s, Next(limits, Next(limits, Next(limits, open, ReleaseWebsocket(h)), Leave(h)), Exit(h)), h)
  {
    hide Next, Opened, Gone;
    WebsocketOpens(limits, s, h);
    WebsocketCloses(limits, s, Next(limits, Next(limits, Next(limits, Next(limits, s, Accept(h)), Start(h)),
                                                 AcquireWebsocket(h)), HandOver(h)), h);
  }

  /** With no slot free, neither kind is handed out. */
  lemma NoSlotNoConnection(limits: Limits, s: Server, h: nat)
    ensures s.requestFree == 0 ==> Next(limits, s, Accept(h)) == s
    ensures s.websocketFree == 0 ==> Next(limits, s, AcquireWebsocket(h)) == s
  {
  }

  lemma OneMoreLife(limits: Limits, n: nat)
    ensures Run(limits, Initial(limits), Lives(n + 1))
         == Run(limits, Run(limits, Initial(limits), Lives(n)), WebsocketLife(n))
  {
    RunConcat(limits, Initial(limits), Lives(n), WebsocketLife(n));
  }

  /** Every slot is free, and `n` connections are still alive. */
  ghost predicate AllDraining(limits: Limits, s: Server, n: nat) {
    && |s.handlers.Keys| == n && s.handlers.Keys == s.accepted && (forall h :: h in s.accepted ==> h < n)
    && s.requestFree == limits.requests && s.websocketFree == limits.websockets
  }

  lemma NextDraining(limits: Limits, s: Server, n: nat)
    requires limits.requests >= 1 && limits.websockets >= 1 && AllDraining(limits, s, n)
    ensures AllDraining(limits, Run(limits, s, WebsocketLife(n)), n + 1)
  {
    OneLife(limits, s, n);
    AddOne(s.handlers.Keys, Run(limits, s, WebsocketLife(n)).handlers.Keys, n);
  }

  /** The slots themselves do not bound the live handlers: whatever the limits,
      any number of threads can be draining at once with every slot free. */
  lemma {:induction false} DrainingIsUnbounded(limits: Limits, n: nat)
    requires limits.requests >= 1 && limits.websockets >= 1
    ensures AllDraining(limits, Run(limits, Initial(limits), Lives(n)), n)
  {
    if n == 0 {
    } else {
      DrainingIsUnbounded(limits, n - 1);
      OneMoreLife(limits, n - 1);
      NextDraining(limits, Run(limits, Initial(limits), Lives(n - 1)), n - 1);
    }
  }
}
