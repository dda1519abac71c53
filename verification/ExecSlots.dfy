/**
 Admission to exec (internal/exec/handler.go, limits.go and the promotion in session.go):
 the per-IP handshake gate, the pending pool, the session pool, and the once-only
 two-step release, over any number of concurrent connections.
 */
module ExecSlots {

  // ---------------------------------------------------------------- the per-IP gate

  type Held = map<string, int>

  function HeldBy(held: Held, key: string): int {
    if key in held then held[key] else 0
  }

  /** A gate whose limit is not positive is disabled: it admits everything and records nothing. */
  predicate Admits(held: Held, limit: int, key: string) {
    limit <= 0 || HeldBy(held, key) < limit
  }

  function Acquired(held: Held, limit: int, key: string): Held {
    if limit <= 0 then held else held[key := HeldBy(held, key) + 1]
  }

  function Released(held: Held, limit: int, key: string): Held {
    if limit <= 0 then held
    else if HeldBy(held, key) <= 1 then held - {key}
    else held[key := HeldBy(held, key) - 1]
  }

  /** Releasing undoes acquiring, on every gate that keeps no zero entries. */
  lemma ReleaseUndoesAcquire(held: Held, limit: int, key: string)
    requires forall k | k in held :: held[k] >= 1
    ensures Released(Acquired(held, limit, key), limit, key) == held
  {
    if limit > 0 && key !in held {
      assert Acquired(held, limit, key) - {key} == held;
    }
  }

  class IpGate {
    var held: Held
    const limit: int

    constructor (limit: int)
      ensures this.limit == limit && held == map[]
    {
      this.limit := limit;
      held := map[];
    }

    method Acquire(key: string) returns (ok: bool)
      modifies this
      ensures ok == Admits(old(held), limit, key)
      ensures ok <==> limit <= 0 || (if key in old(held) then old(held[key]) else 0) < limit
      ensures held == if ok then Acquired(old(held), limit, key) else old(held)
    {
      if limit <= 0 {
        return true;
      }
      var n := if key in held then held[key] else 0;
      if n >= limit {
        return false;
      }
      held := held[key := n + 1];
      return true;
    }

    method Release(key: string)
      modifies this
      ensures held == Released(old(held), limit, key)
    {
      if limit <= 0 {
        return;
      }
      var n := if key in held then held[key] else 0;
      if n <= 1 {
        held := held - {key};
      } else {
        held := held[key := n - 1];
      }
    }
  }

  // ---------------------------------------------------------------- connections

  /** Where one connection's goroutine is; the release of its handshake takes two steps. */
  datatype Pc =
    | Arriving
    | Gated        // holds the IP gate, about to try the pending pool
    | Handshaking  // holds gate and pending slot, reading the auth frame
    | Promoting    // took a session slot, the handshake's two slots still held
    | HalfReleased // promoted, pending drained, gate still held
    | InSession
    | Closing      // failed before promotion, the deferred release about to run
    | HalfClosed   // pending drained, gate still held
    | Ended

  datatype Conn = Conn(ip: string, pc: Pc)

  datatype Slot = Gate(ip: string) | PendingSlot | SessionSlot

  predicate Holds(c: Conn, slot: Slot) {
    match slot
    case Gate(ip) => c.ip == ip && !c.pc.Arriving? && !c.pc.InSession? && !c.pc.Ended?
    case PendingSlot => c.pc.Handshaking? || c.pc.Promoting? || c.pc.Closing?
    case SessionSlot => c.pc.Promoting? || c.pc.HalfReleased? || c.pc.InSession?
  }

  datatype State = State(
    maxSessions: nat,
    gateLimit: int,
    held: Held,
    pending: nat,   // tokens in the pending channel
    sessions: nat,  // tokens in the sessions channel
    conns: map<nat, Conn>)

  const HANDSHAKE_POOL_FACTOR := 2

  function Init(maxSessions: nat, gateLimit: int): State {
    State(maxSessions, gateLimit, map[], 0, 0, map[])
  }

  datatype Event =
    | Arrive(id: nat, ip: string)
    | AcquireGate(id: nat)
    | TakePending(id: nat)
    | HandshakeFails(id: nat)
    | Promote(id: nat)
    | DrainPending(id: nat)
    | ReleaseGate(id: nat)
    | SessionEnds(id: nat)

  predicate At(s: State, id: nat, pc: Pc) {
    id in s.conns && s.conns[id].pc == pc
  }

  /** Receiving from a channel blocks while it is empty, so those steps need a token. */
  predicate Enabled(s: State, e: Event) {
    match e
    case Arrive(id, _) => id !in s.conns
    case AcquireGate(id) => At(s, id, Arriving)
    case TakePending(id) => At(s, id, Gated)
    case HandshakeFails(id) => At(s, id, Handshaking)
    case Promote(id) => At(s, id, Handshaking)
    case DrainPending(id) => (At(s, id, Promoting) || At(s, id, Closing)) && s.pending > 0
    case ReleaseGate(id) => At(s, id, HalfReleased) || At(s, id, HalfClosed)
    case SessionEnds(id) => At(s, id, InSession) && s.sessions > 0
  }

  function Goto(s: State, id: nat, pc: Pc): State
    requires id in s.conns
  {
    s.(conns := s.conns[id := s.conns[id].(pc := pc)])
  }

  function Step(s: State, e: Event): State
    requires Enabled(s, e)
  {
    match e
    case Arrive(id, ip) => s.(conns := s.conns[id := Conn(ip, Arriving)])
    case AcquireGate(id) =>
      var ip := s.conns[id].ip;
      if Admits(s.held, s.gateLimit, ip)
      then Goto(s, id, Gated).(held := Acquired(s.held, s.gateLimit, ip))
      else Goto(s, id, Ended)
    case TakePending(id) =>
      if s.pending < HANDSHAKE_POOL_FACTOR * s.maxSessions
      then Goto(s, id, Handshaking).(pending := s.pending + 1)
      else Goto(s, id, Ended).(held := Released(s.held, s.gateLimit, s.conns[id].ip))
    case HandshakeFails(id) => Goto(s, id, Closing)
    case Promote(id) =>
      if s.sessions < s.maxSessions
      then Goto(s, id, Promoting).(sessions := s.sessions + 1)
      else Goto(s, id, Closing)
    case DrainPending(id) =>
      Goto(s, id, if s.conns[id].pc.Promoting? then HalfReleased else HalfClosed).(pending := s.pending - 1)
    case ReleaseGate(id) =>
      Goto(s, id, if s.conns[id].pc.HalfReleased? then InSession else Ended)
        .(held := Released(s.held, s.gateLimit, s.conns[id].ip))
    case SessionEnds(id) => Goto(s, id, Ended).(sessions := s.sessions - 1)
  }

  predicate IsRun(s: State, es: seq<Event>)
    decreases |es|
  {
    es == [] || (Enabled(s, es[0]) && IsRun(Step(s, es[0]), es[1..]))
  }

  function Run(s: State, es: seq<Event>): State
    requires IsRun(s, es)
    decreases |es|
  {
    if es == [] then s else Run(Step(s, es[0]), es[1..])
  }

  // ---------------------------------------------------------------- conservation

  function Holders(conns: map<nat, Conn>, slot: Slot): set<nat> {
    set id | id in conns && Holds(conns[id], slot)
  }

  function Token(b: bool): int {
    if b then 1 else 0
  }

  lemma HoldersUpdate(conns: map<nat, Conn>, id: nat, c: Conn, slot: Slot)
    ensures |Holders(conns[id := c], slot)|
         == |Holders(conns, slot)| - Token(id in conns && Holds(conns[id], slot)) + Token(Holds(c, slot))
  {
    var before, after := Holders(conns, slot), Holders(conns[id := c], slot);
    if Holds(c, slot) {
      assert after == before + {id};
    } else {
      assert after == before - {id};
    }
  }

  ghost predicate PoolInv(s: State) {
    && s.pending == |Holders(s.conns, PendingSlot)| <= HANDSHAKE_POOL_FACTOR * s.maxSessions
    && s.sessions == |Holders(s.conns, SessionSlot)| <= s.maxSessions
  }

  ghost predicate GateInv(s: State) {
    if s.gateLimit <= 0 then s.held == map[]
    else
      && (forall ip :: HeldBy(s.held, ip) == |Holders(s.conns, Gate(ip))| <= s.gateLimit)
      && (forall ip | ip in s.held :: s.held[ip] >= 1)
  }

  ghost predicate Inv(s: State) {
    PoolInv(s) && GateInv(s)
  }

  lemma StepKeepsPools(s: State, e: Event)
    requires PoolInv(s) && Enabled(s, e)
    ensures PoolInv(Step(s, e))
  {
    var c := Step(s, e).conns[e.id];
    HoldersUpdate(s.conns, e.id, c, PendingSlot);
    HoldersUpdate(s.conns, e.id, c, SessionSlot);
  }

  lemma StepKeepsGate(s: State, e: Event)
    requires GateInv(s) && Enabled(s, e)
    ensures GateInv(Step(s, e))
  {
    var next := Step(s, e);
    var c := next.conns[e.id];
    assert next.conns == s.conns[e.id := c];
    if s.gateLimit > 0 {
      HoldersUpdate(s.conns, e.id, c, Gate(c.ip));
      forall ip ensures HeldBy(next.held, ip) == |Holders(next.conns, Gate(ip))| <= s.gateLimit {
        HoldersUpdate(s.conns, e.id, c, Gate(ip));
      }
    }
  }

  lemma {:induction false} RunKeepsInv(s: State, es: seq<Event>)
    requires Inv(s) && IsRun(s, es)
    ensures Inv(Run(s, es))
    ensures Run(s, es).maxSessions == s.maxSessions && Run(s, es).gateLimit == s.gateLimit
    decreases |es|
  {
    if es != [] {
      StepKeepsPools(s, es[0]);
      StepKeepsGate(s, es[0]);
      RunKeepsInv(Step(s, es[0]), es[1..]);
    }
  }

  /** Over every interleaving, each pool's occupancy is exactly the connections holding its slot, within its bound. */
  lemma SlotsConserved(maxSessions: nat, gateLimit: int, es: seq<Event>)
    requires IsRun(Init(maxSessions, gateLimit), es)
    ensures var s := Run(Init(maxSessions, gateLimit), es);
            && s.pending == |Holders(s.conns, PendingSlot)| <= 2 * maxSessions
            && s.sessions == |Holders(s.conns, SessionSlot)| <= maxSessions
            && (gateLimit > 0 ==> forall ip :: HeldBy(s.held, ip) == |Holders(s.conns, Gate(ip))| <= gateLimit)
            && (forall ip | ip in s.held :: s.held[ip] >= 1)
  {
    InitInv(maxSessions, gateLimit);
    RunKeepsInv(Init(maxSessions, gateLimit), es);
  }

  lemma InitInv(maxSessions: nat, gateLimit: int)
    ensures Inv(Init(maxSessions, gateLimit))
  {
    var s := Init(maxSessions, gateLimit);
    forall slot ensures Holders(s.conns, slot) == {} {
    }
  }

  /** No release can block: a goroutine about to receive its token always finds one. */
  lemma ReleaseNeverBlocks(maxSessions: nat, gateLimit: int, es: seq<Event>, id: nat)
    requires IsRun(Init(maxSessions, gateLimit), es)
    ensures var s := Run(Init(maxSessions, gateLimit), es);
            && (At(s, id, Promoting) || At(s, id, Closing) ==> Enabled(s, DrainPending(id)))
            && (At(s, id, InSession) ==> Enabled(s, SessionEnds(id)))
  {
    SlotsConserved(maxSessions, gateLimit, es);
    var s := Run(Init(maxSessions, gateLimit), es);
    if At(s, id, Promoting) || At(s, id, Closing) {
      assert id in Holders(s.conns, PendingSlot);
    }
    if At(s, id, InSession) {
      assert id in Holders(s.conns, SessionSlot);
    }
  }

  /** When every connection has ended, nothing is left behind in any pool. */
  lemma NothingLeaks(maxSessions: nat, gateLimit: int, es: seq<Event>)
    requires IsRun(Init(maxSessions, gateLimit), es)
    requires forall id | id in Run(Init(maxSessions, gateLimit), es).conns ::
        At(Run(Init(maxSessions, gateLimit), es), id, Ended)
    ensures var s := Run(Init(maxSessions, gateLimit), es);
            s.pending == 0 && s.sessions == 0 && s.held == map[]
  {
    SlotsConserved(maxSessions, gateLimit, es);
    RunKeepsInv(Init(maxSessions, gateLimit), es);
    var s := Run(Init(maxSessions, gateLimit), es);
    assert Holders(s.conns, PendingSlot) == {} && Holders(s.conns, SessionSlot) == {};
    forall ip ensures ip !in s.held {
      assert Holders(s.conns, Gate(ip)) == {};
    }
  }

  /**
   Who gets in, and how a connection goes on, whatever the others do. A connection passes the gate if its IP has fewer
   handshakes than the limit, or there is none; gets a pending slot if fewer than twice the sessions are taken; and is
   promoted if fewer sessions than the maximum are. Turned away, it gives back what it holds and ends.
   */
  lemma AdmitsExactly(maxSessions: nat, gateLimit: int, es: seq<Event>, e: Event)
    requires IsRun(Init(maxSessions, gateLimit), es) && Enabled(Run(Init(maxSessions, gateLimit), es), e)
    ensures var s := Run(Init(maxSessions, gateLimit), es);
            var next := Step(s, e).conns;
            && next.Keys == s.conns.Keys + {e.id}
            && (forall id | id in s.conns && id != e.id :: next[id] == s.conns[id])
            && next[e.id].ip == (if e.Arrive? then e.ip else s.conns[e.id].ip)
            && next[e.id].pc ==
                 match e
                 case Arrive(_, _) => Arriving
                 case AcquireGate(id) =>
                   if gateLimit <= 0 || |Holders(s.conns, Gate(s.conns[id].ip))| < gateLimit then Gated else Ended
                 case TakePending(_) => if |Holders(s.conns, PendingSlot)| < 2 * maxSessions then Handshaking else Ended
                 case HandshakeFails(_) => Closing
                 case Promote(_) => if |Holders(s.conns, SessionSlot)| < maxSessions then Promoting else Closing
                 case DrainPending(id) => if s.conns[id].pc == Promoting then HalfReleased else HalfClosed
                 case ReleaseGate(id) => if s.conns[id].pc == HalfReleased then InSession else Ended
                 case SessionEnds(_) => Ended
  {
    SlotsConserved(maxSessions, gateLimit, es);
    InitInv(maxSessions, gateLimit);
    RunKeepsInv(Init(maxSessions, gateLimit), es);
  }
}
