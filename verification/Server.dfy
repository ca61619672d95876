/**
 The request dispatcher (API/server.py) over per-session ledgers (API/identifiers.py).

 An instance is represented by the requests it was handed, oldest first: handing it a request twice
 would show.  What a handler does with a request is foreign, so every delivery carries an `Answer`,
 used only if the request is executed.  Payload digests are payload identity.
 */
module Server {
  import opened Wrappers
  import TextIds

  datatype Kind = CombatKind | WholeRunKind | UnknownKind

  datatype Operation = Start(kind: Kind) | Close(instanceId: string) | Act(instanceId: string, call: int)

  /** `wellFormed` stands for the rest of `validate_request`. */
  datatype Payload = Payload(wellFormed: bool, session: string, requestSeq: int, op: Operation)

  datatype Status = Completed | Partial | Queued | Running | Cancelled | Rejected | Faulted | Released

  /** What the foreign handler would do; without a status it returns no dictionary, or one without a known status. */
  datatype Answer = Returns(body: int, status: Option<Status>) | Rejects(reason: int) | Raises(reason: int)

  datatype Detail =
    | Body(value: int) | HandlerRejected(reason: int) | HandlerFault(reason: int)
    | ImproperResponse | InvalidRequest | SequenceGap | SequenceConflict | SessionCapacity
    | InstanceConflict | UnknownInstance | UnknownKindRejected

  datatype Response = Response(session: string, requestSeq: int, status: Status, detail: Detail,
      instanceId: Option<string>)

  datatype Ledger = Ledger(
    lastSeq: int, lastRequest: Option<Payload>, lastResponse: Option<Response>, active: Option<string>)

  const NEW_LEDGER := Ledger(0, None, None, None)

  datatype State = State(
    sessions: map<string, Ledger>, instances: map<string, seq<Payload>>, serial: nat, maxSessions: nat)

  function Initial(maxSessions: nat): State {
    State(map[], map[], 1, maxSessions)
  }

  predicate Valid(p: Payload) {
    p.wellFormed && p.requestSeq > 0
  }

  // ---- Executing one request -------------------------------------------------------------------------

  /** What executing changes outside the sequence bookkeeping, and what it answers. */
  datatype Done = Done(
    active: Option<string>, instances: map<string, seq<Payload>>, serial: nat,
    status: Status, detail: Detail, instanceId: Option<string>)

  function Execute(active: Option<string>, instances: map<string, seq<Payload>>, serial: nat, p: Payload,
      a: Answer): Done {
    match p.op
    case Start(kind) =>
      if active.Some? then Done(active, instances, serial, Rejected, InstanceConflict, None)
      else if kind == UnknownKind then Done(None, instances, serial + 1, Rejected, UnknownKindRejected, None)
      else if a.Returns? && a.status == Some(Completed) then
        var id := TextIds.InstanceId(serial);
        Done(Some(id), instances[id := [p]], serial + 1, Completed, Body(a.body), Some(id))
      else Done(None, instances, serial + 1, if a.Rejects? then Rejected else Faulted, Refusal(a), None)
    case Close(id) =>
      if active != Some(id) then Done(active, instances, serial, Rejected, InstanceConflict, Some(id))
      else if id !in instances then Done(active, instances, serial, Rejected, UnknownInstance, Some(id))
      else if a.Returns? then Done(None, instances - {id}, serial, Completed, Body(0), Some(id))
      else Done(None, instances - {id}, serial, Faulted, HandlerFault(a.reason), Some(id))
    case Act(id, _) =>
      if active != Some(id) then Done(active, instances, serial, Rejected, InstanceConflict, Some(id))
      else if id !in instances then Done(active, instances, serial, Rejected, UnknownInstance, Some(id))
      else
        var after := instances[id := instances[id] + [p]];
        if a.Returns? && a.status.Some? then Done(active, after, serial, a.status.value, Body(a.body), Some(id))
        else Done(active, after, serial, if a.Rejects? then Rejected else Faulted, Refusal(a), Some(id))
  }

  function Refusal(a: Answer): Detail {
    match a
    case Returns(_, _) => ImproperResponse
    case Rejects(reason) => HandlerRejected(reason)
    case Raises(reason) => HandlerFault(reason)
  }

  function InstanceIdOf(p: Payload): Option<string> {
    match p.op
    case Start(_) => None
    case Close(id) => Some(id)
    case Act(id, _) => Some(id)
  }

  function Reject(p: Payload, d: Detail): Response {
    Response(p.session, p.requestSeq, Rejected, d, InstanceIdOf(p))
  }

  // ---- One delivery ----------------------------------------------------------------------------------

  /** The next request of its session, or the first of a new one while there is room. */
  predicate Executes(s: State, p: Payload) {
    && Valid(p)
    && if p.session in s.sessions then p.requestSeq == s.sessions[p.session].lastSeq + 1
       else p.requestSeq == 1 && |s.sessions| < s.maxSessions
  }

  function LedgerFor(s: State, session: string): Ledger {
    if session in s.sessions then s.sessions[session] else NEW_LEDGER
  }

  function Advance(s: State, p: Payload, d: Done): (State, Response) {
    var r := Response(p.session, p.requestSeq, d.status, d.detail, d.instanceId);
    (State(s.sessions[p.session := Ledger(p.requestSeq, Some(p), Some(r), d.active)], d.instances, d.serial,
        s.maxSessions), r)
  }

  function Handle(s: State, p: Payload, a: Answer): (State, Response) {
    if Executes(s, p) then
      var l := LedgerFor(s, p.session);
      Advance(s, p, Execute(l.active, s.instances, s.serial, p, a))
    else
      (s,
       if !Valid(p) then Reject(p, InvalidRequest)
       else if p.session !in s.sessions then Reject(p, if p.requestSeq != 1 then SequenceGap else SessionCapacity)
       else
         var l := s.sessions[p.session];
         if p.requestSeq != l.lastSeq then Reject(p, SequenceGap)
         else if l.lastRequest != Some(p) || l.lastResponse.None? then Reject(p, SequenceConflict)
         else l.lastResponse.value)
  }

  /** Creating the ledger of a new session first makes no difference to its first request. */
  lemma FirstRequest(s: State, p: Payload, a: Answer)
    requires p.session !in s.sessions && Executes(s, p)
    ensures Handle(s.(sessions := s.sessions[p.session := NEW_LEDGER]), p, a) == Handle(s, p, a)
  {
    var u := s.(sessions := s.sessions[p.session := NEW_LEDGER]);
    assert Handle(u, p, a).0.sessions == Handle(s, p, a).0.sessions;
  }

  // ---- Ledger and server objects ---------------------------------------------------------------------

  datatype Begun = Fresh | Cached(response: Response) | Refused(detail: Detail)

  class SessionLedger {
    var lastSeq: int
    var lastRequest: Option<Payload>
    var lastResponse: Option<Response>
    var active: Option<string>

    ghost function Abs(): Ledger
      reads this
    {
      Ledger(lastSeq, lastRequest, lastResponse, active)
    }

    constructor ()
      ensures Abs() == NEW_LEDGER
    {
      lastSeq, lastRequest, lastResponse, active := 0, None, None, None;
    }

    /** Replays, refuses, or opens the next sequence number. */
    method Begin(p: Payload) returns (b: Begun)
      modifies this
      ensures b.Fresh? <==> p.requestSeq == old(lastSeq) + 1
      ensures Abs() == if b.Fresh? then Ledger(p.requestSeq, Some(p), None, old(active)) else old(Abs())
      ensures b.Cached? <==> p.requestSeq == old(lastSeq) && old(lastRequest) == Some(p) && old(lastResponse).Some?
      ensures b.Cached? ==> Some(b.response) == old(lastResponse)
      ensures b.Refused? ==> b.detail == if p.requestSeq == old(lastSeq) then SequenceConflict else SequenceGap
    {
      if p.requestSeq == lastSeq {
        if lastRequest != Some(p) || lastResponse.None? { return Refused(SequenceConflict); }
        return Cached(lastResponse.value);
      }
      if p.requestSeq != lastSeq + 1 { return Refused(SequenceGap); }
      lastSeq, lastRequest, lastResponse := p.requestSeq, Some(p), None;
      b := Fresh;
    }

    method Complete(r: Response)
      modifies this`lastResponse
      ensures lastResponse == Some(r)
    {
      lastResponse := Some(r);
    }
  }

  class RLApiServer {
    const maxSessions: nat
    var sessions: map<string, SessionLedger>
    var instances: map<string, seq<Payload>>
    var serial: nat

    /** No two sessions share a ledger object. */
    ghost predicate Separate()
      reads this
    {
      forall a, b | a in sessions && b in sessions && a != b :: sessions[a] != sessions[b]
    }

    ghost function Abs(): State
      reads this, sessions.Values
    {
      State(map k | k in sessions :: sessions[k].Abs(), instances, serial, maxSessions)
    }

    constructor (max: nat)
      ensures Separate() && Abs() == Initial(max)
    {
      maxSessions, sessions, instances, serial := max, map[], map[], 1;
    }

    method HandleRequest(p: Payload, a: Answer) returns (r: Response)
      requires Separate()
      modifies this, sessions.Values
      ensures Separate() && (Abs(), r) == Handle(old(Abs()), p, a)
    {
      if !Valid(p) { return Reject(p, InvalidRequest); }
      var refused := GetOrCreateSession(p);
      if refused.Some? { return Reject(p, refused.value); }
      r := Serve(p, a);
    }

    /** A new session starts at sequence number 1, while there is room. */
    method GetOrCreateSession(p: Payload) returns (refused: Option<Detail>)
      requires Separate() && Valid(p)
      modifies this`sessions
      ensures Separate()
      ensures p.session in old(sessions) ==> sessions == old(sessions)
      ensures p.session in sessions && p.session !in old(sessions) ==> fresh(sessions[p.session])
      ensures refused.Some? ==> Abs() == old(Abs()) && p.session !in sessions && !Executes(Abs(), p)
      ensures refused.Some? ==> refused.value == if p.requestSeq != 1 then SequenceGap else SessionCapacity
      ensures refused.None? ==> p.session in sessions && instances == old(instances) && serial == old(serial)
      ensures refused.None? ==> forall a :: Handle(Abs(), p, a) == Handle(old(Abs()), p, a)
    {
      ghost var s := Abs();
      assert s.sessions.Keys == sessions.Keys;
      if p.session in sessions { return None; }
      if p.requestSeq != 1 { return Some(SequenceGap); }
      assert |s.sessions.Keys| == |sessions.Keys|;
      if |sessions| >= maxSessions { return Some(SessionCapacity); }
      var ledger := new SessionLedger();
      sessions := sessions[p.session := ledger];
      assert Abs() == s.(sessions := s.sessions[p.session := NEW_LEDGER]);
      forall a ensures Handle(Abs(), p, a) == Handle(s, p, a) { FirstRequest(s, p, a); }
      refused := None;
    }

    /** The sequenced part of a request whose session has a ledger. */
    method Serve(p: Payload, a: Answer) returns (r: Response)
      requires Separate() && Valid(p) && p.session in sessions
      modifies this`instances, this`serial, sessions[p.session]
      ensures sessions == old(sessions) && (Abs(), r) == Handle(old(Abs()), p, a)
    {
      ghost var s := Abs();
      var ledger := sessions[p.session];
      var begun := ledger.Begin(p);
      match begun {
        case Cached(response) => r := response;
        case Refused(detail) => r := Reject(p, detail);
        case Fresh =>
          var status, detail, instanceId := ExecuteNewRequest(ledger, p, a);
          r := Response(p.session, p.requestSeq, status, detail, instanceId);
          ledger.Complete(r);
      }
      assert Abs().sessions == s.sessions[p.session := ledger.Abs()];
      assert s.sessions[p.session := s.sessions[p.session]] == s.sessions;
    }

    method ExecuteNewRequest(ledger: SessionLedger, p: Payload, a: Answer)
      returns (status: Status, detail: Detail, instanceId: Option<string>)
      modifies this`instances, this`serial, ledger`active
      ensures Done(ledger.active, instances, serial, status, detail, instanceId)
              == Execute(old(ledger.active), old(instances), old(serial), p, a)
    {
      instanceId := InstanceIdOf(p);
      match p.op
      case Start(kind) =>
        if ledger.active.Some? { return Rejected, InstanceConflict, None; }
        status, detail, instanceId := HandleStartInstance(kind, p, a);
        if instanceId.Some? { ledger.active := instanceId; }
      case Close(id) =>
        if ledger.active != Some(id) { return Rejected, InstanceConflict, instanceId; }
        if id !in instances { return Rejected, UnknownInstance, instanceId; }
        status := if a.Returns? then Completed else Faulted;
        detail := if a.Returns? then Body(0) else HandlerFault(a.reason);
        instances := instances - {id};
        ledger.active := None;
      case Act(id, _) =>
        if ledger.active != Some(id) { return Rejected, InstanceConflict, instanceId; }
        if id !in instances { return Rejected, UnknownInstance, instanceId; }
        instances := instances[id := instances[id] + [p]];
        if a.Returns? && a.status.Some? { return a.status.value, Body(a.body), instanceId; }
        status := if a.Rejects? then Rejected else Faulted;
        detail := Refusal(a);
    }

    /** An instance whose constructor or first response fails is not kept, but its serial is spent. */
    method HandleStartInstance(kind: Kind, p: Payload, a: Answer)
      returns (status: Status, detail: Detail, instanceId: Option<string>)
      requires p.op == Start(kind)
      modifies this`instances, this`serial
      ensures Done(if instanceId.Some? then instanceId else None, instances, serial, status, detail, instanceId)
              == Execute(None, old(instances), old(serial), p, a)
    {
      var id := TextIds.InstanceId(serial);
      serial := serial + 1;
      if kind == UnknownKind { return Rejected, UnknownKindRejected, None; }
      if a.Returns? && a.status == Some(Completed) {
        instances := instances[id := [p]];
        return Completed, Body(a.body), Some(id);
      }
      return if a.Rejects? then Rejected else Faulted, Refusal(a), None;
    }

    /** Forgets everything; the instance serial goes on. */
    method CloseAll()
      modifies this`instances, this`sessions
      ensures Separate() && Abs() == Initial(maxSessions).(serial := serial)
    {
      instances, sessions := map[], map[];
    }
  }

  // ---- What a client is answered ---------------------------------------------------------------------

  /** A request of the owner that the handler sees, and what becomes of its answer. */
  lemma HandlerAnswers(s: State, p: Payload, a: Answer)
    requires Executes(s, p) && p.op.Act? && p.op.instanceId in s.instances
    requires LedgerFor(s, p.session).active == Some(p.op.instanceId)
    ensures var (t, r) := Handle(s, p, a);
            && r.session == p.session && r.requestSeq == p.requestSeq && r.instanceId == Some(p.op.instanceId)
            && t.serial == s.serial && t.instances == s.instances[p.op.instanceId := s.instances[p.op.instanceId] + [p]]
            && match a
               case Returns(body, Some(status)) => r.status == status && r.detail == Body(body)
               case Returns(_, None) => r.status == Faulted && r.detail == ImproperResponse
               case Rejects(reason) => r.status == Rejected && r.detail == HandlerRejected(reason)
               case Raises(reason) => r.status == Faulted && r.detail == HandlerFault(reason)
  {
  }

  /** A request for an instance the session does not own reaches no handler and changes no instance. */
  lemma StrangersAreRejected(s: State, p: Payload, a: Answer)
    requires Executes(s, p) && !p.op.Start? && LedgerFor(s, p.session).active != Some(p.op.instanceId)
    ensures var (t, r) := Handle(s, p, a);
            && t.instances == s.instances && t.serial == s.serial
            && r == Response(p.session, p.requestSeq, Rejected, InstanceConflict, Some(p.op.instanceId))
  {
  }

  /** Closing always ends the instance; only its answer tells whether closing raised. */
  lemma CloseAnswers(s: State, p: Payload, a: Answer)
    requires Executes(s, p) && p.op.Close? && p.op.instanceId in s.instances
    requires LedgerFor(s, p.session).active == Some(p.op.instanceId)
    ensures var (t, r) := Handle(s, p, a);
            && t.instances == s.instances - {p.op.instanceId} && t.serial == s.serial
            && p.session in t.sessions && t.sessions[p.session].active == None
            && r == if a.Returns? then Response(p.session, p.requestSeq, Completed, Body(0), Some(p.op.instanceId))
                    else Response(p.session, p.requestSeq, Faulted, HandlerFault(a.reason), Some(p.op.instanceId))
  {
  }

  /** Starting: refused beside an instance, otherwise a serial is spent, and kept only with a completed answer. */
  lemma StartAnswers(s: State, p: Payload, a: Answer)
    requires Executes(s, p) && p.op.Start?
    ensures var (t, r) := Handle(s, p, a);
            var id := TextIds.InstanceId(s.serial);
            && p.session in t.sessions
            && if LedgerFor(s, p.session).active.Some? then
                 t.serial == s.serial && t.instances == s.instances && r.status == Rejected
                 && r.detail == InstanceConflict && t.sessions[p.session].active == LedgerFor(s, p.session).active
               else if p.op.kind != UnknownKind && a.Returns? && a.status == Some(Completed) then
                 t.serial == s.serial + 1 && t.instances == s.instances[id := [p]] && r.status == Completed
                 && r.detail == Body(a.body) && r.instanceId == Some(id) && t.sessions[p.session].active == Some(id)
               else
                 && t.serial == s.serial + 1 && t.instances == s.instances && r.instanceId == None
                 && t.sessions[p.session].active == None
                 && r.status == if p.op.kind == UnknownKind || a.Rejects? then Rejected else Faulted
  {
  }

  /** What is not executed is answered from the ledger: the latest request again, or the reason it is refused. */
  lemma OthersAreAnswered(s: State, p: Payload, a: Answer)
    requires !Executes(s, p)
    ensures var (t, r) := Handle(s, p, a);
            var l := LedgerFor(s, p.session);
            && t == s
            && if Valid(p) && p.session in s.sessions && p.requestSeq == l.lastSeq && l.lastRequest == Some(p)
                  && l.lastResponse.Some?
               then r == l.lastResponse.value
               else
                 && r.session == p.session && r.requestSeq == p.requestSeq && r.status == Rejected
                 && r.instanceId == (if p.op.Start? then None else Some(p.op.instanceId))
                 && r.detail == if !Valid(p) then InvalidRequest
                                else if p.session !in s.sessions && p.requestSeq == 1 then SessionCapacity
                                else if p.session in s.sessions && p.requestSeq == l.lastSeq then SequenceConflict
                                else SequenceGap
  {
  }

  // ---- Invariant -------------------------------------------------------------------------------------

  /** A history an owner's requests can have produced: each at most once, in sequence order. */
  predicate InOrder(h: seq<Payload>, session: string, lastSeq: int) {
    && (forall p <- h :: p.session == session && p.requestSeq <= lastSeq)
    && (forall i, j | 0 <= i < j < |h| :: h[i].requestSeq < h[j].requestSeq)
  }

  /** No request of the session is in flight, and its latest one can be replayed. */
  predicate Settled(l: Ledger, session: string) {
    && l.lastSeq >= 1
    && l.lastRequest.Some? && l.lastRequest.value.session == session && l.lastRequest.value.requestSeq == l.lastSeq
    && Valid(l.lastRequest.value)
    && l.lastResponse.Some? && l.lastResponse.value.session == session && l.lastResponse.value.requestSeq == l.lastSeq
  }

  /** The serial an instance id was made from. */
  function SerialOf(id: string): nat {
    if |id| < 5 then 0 else TextIds.Value(id[5..])
  }

  predicate Issued(id: string, serial: nat) {
    1 <= SerialOf(id) < serial && id == TextIds.InstanceId(SerialOf(id))
  }

  /** The instance's first request was its owner's; every later one was too. */
  predicate HeldByOwner(s: State, id: string)
    requires id in s.instances
  {
    var h := s.instances[id];
    && h != []
    && h[0].session in s.sessions
    && s.sessions[h[0].session].active == Some(id)
    && InOrder(h, h[0].session, s.sessions[h[0].session].lastSeq)
    && Issued(id, s.serial)
  }

  predicate OwnsLive(s: State, k: string)
    requires k in s.sessions
  {
    s.sessions[k].active.Some? ==>
      && s.sessions[k].active.value in s.instances
      && s.instances[s.sessions[k].active.value] != []
      && s.instances[s.sessions[k].active.value][0].session == k
  }

  ghost predicate Inv(s: State) {
    && s.serial >= 1 && |s.sessions| <= s.maxSessions
    && (forall k <- s.sessions :: Settled(s.sessions[k], k))
    && (forall k <- s.sessions :: OwnsLive(s, k))
    && (forall id <- s.instances :: HeldByOwner(s, id))
  }

  lemma InitialInv(maxSessions: nat, serial: nat)
    requires serial >= 1
    ensures Inv(Initial(maxSessions).(serial := serial))
  {
  }

  lemma FreshIdIsNew(s: State)
    requires Inv(s)
    ensures TextIds.InstanceId(s.serial) !in s.instances
    ensures Issued(TextIds.InstanceId(s.serial), s.serial + 1)
  {
    var id := TextIds.InstanceId(s.serial);
    assert id[5..] == TextIds.Pad6(s.serial);
    TextIds.ValueOfPad6(s.serial);
    forall other <- s.instances ensures other != id {
      assert HeldByOwner(s, other);
    }
  }

  lemma SessionRoom(s: State, p: Payload, l: Ledger)
    requires |s.sessions| <= s.maxSessions && Executes(s, p)
    ensures |s.sessions[p.session := l]| <= s.maxSessions
  {
    assert s.sessions[p.session := l].Keys == s.sessions.Keys + {p.session};
  }

  /** `d` touches only the executing session's own instance, or a new one. */
  predicate IsLocal(s: State, p: Payload, active: Option<string>, d: Done) {
    && d.detail != UnknownInstance && d.serial >= s.serial
    && (forall id | id in s.instances && active != Some(id) :: id in d.instances && d.instances[id] == s.instances[id])
    && (forall id <- d.instances :: d.active == Some(id) || (id in s.instances && active != Some(id)))
    && (d.active.Some? ==> d.active.value in d.instances && OwnHistory(d, p))
  }

  predicate OwnHistory(d: Done, p: Payload)
    requires d.active.Some? && d.active.value in d.instances
  {
    var h := d.instances[d.active.value];
    h != [] && h[0].session == p.session && InOrder(h, p.session, p.requestSeq) && Issued(d.active.value, d.serial)
  }

  lemma StartIsLocal(s: State, p: Payload, a: Answer)
    requires p.op.Start?
    requires TextIds.InstanceId(s.serial) !in s.instances && Issued(TextIds.InstanceId(s.serial), s.serial + 1)
    ensures IsLocal(s, p, None, Execute(None, s.instances, s.serial, p, a))
  {
  }

  lemma InOrderGrows(h: seq<Payload>, p: Payload, lastSeq: int)
    requires InOrder(h, p.session, lastSeq) && lastSeq < p.requestSeq
    ensures InOrder(h + [p], p.session, p.requestSeq) && InOrder(h, p.session, p.requestSeq)
  {
  }

  lemma ActIsLocal(s: State, p: Payload, id: string, status: Status, detail: Detail)
    requires id in s.instances && s.instances[id] != [] && s.instances[id][0].session == p.session
             && detail != UnknownInstance
    requires InOrder(s.instances[id] + [p], p.session, p.requestSeq) && Issued(id, s.serial)
    ensures var handed := s.instances[id := s.instances[id] + [p]];
            IsLocal(s, p, Some(id), Done(Some(id), handed, s.serial, status, detail, Some(id)))
  {
  }

  lemma CloseIsLocal(s: State, p: Payload, id: string, status: Status, detail: Detail)
    requires detail != UnknownInstance
    ensures IsLocal(s, p, Some(id), Done(None, s.instances - {id}, s.serial, status, detail, Some(id)))
  {
  }

  lemma OwnerIsLocal(s: State, p: Payload, a: Answer, id: string)
    requires id in s.instances && s.instances[id] != [] && s.instances[id][0].session == p.session
    requires InOrder(s.instances[id], p.session, p.requestSeq)
             && InOrder(s.instances[id] + [p], p.session, p.requestSeq)
    requires Issued(id, s.serial)
    ensures IsLocal(s, p, Some(id), Execute(Some(id), s.instances, s.serial, p, a))
  {
    var d := Execute(Some(id), s.instances, s.serial, p, a);
    match p.op
    case Start(_) =>
    case Close(_) => CloseIsLocal(s, p, id, d.status, d.detail);
    case Act(_, _) => ActIsLocal(s, p, id, d.status, d.detail);
  }

  lemma ExecuteIsLocal(s: State, p: Payload, a: Answer)
    requires Inv(s) && Executes(s, p)
    ensures var active := LedgerFor(s, p.session).active;
            IsLocal(s, p, active, Execute(active, s.instances, s.serial, p, a))
  {
    if LedgerFor(s, p.session).active.Some? {
      var id := LedgerFor(s, p.session).active.value;
      assert OwnsLive(s, p.session) && HeldByOwner(s, id);
      InOrderGrows(s.instances[id], p, s.sessions[p.session].lastSeq);
      OwnerIsLocal(s, p, a, id);
    } else if p.op.Start? {
      FreshIdIsNew(s);
      StartIsLocal(s, p, a);
    }
  }

  lemma HandleKeepsInv(s: State, p: Payload, a: Answer)
    requires Inv(s)
    ensures Inv(Handle(s, p, a).0)
  {
    if Executes(s, p) {
      ExecuteIsLocal(s, p, a);
      LocalKeepsInv(s, p, Execute(LedgerFor(s, p.session).active, s.instances, s.serial, p, a));
    }
  }

  lemma LocalKeepsHeld(s: State, p: Payload, d: Done, id: string)
    requires Executes(s, p) && IsLocal(s, p, LedgerFor(s, p.session).active, d)
    requires id in d.instances && (id in s.instances ==> HeldByOwner(s, id))
    ensures HeldByOwner(Advance(s, p, d).0, id)
  {
  }

  lemma LocalKeepsOwner(s: State, p: Payload, d: Done, k: string)
    requires Executes(s, p) && IsLocal(s, p, LedgerFor(s, p.session).active, d)
    requires k in s.sessions ==> OwnsLive(s, k)
    requires p.session in s.sessions ==> OwnsLive(s, p.session)
    requires k in s.sessions || k == p.session
    ensures OwnsLive(Advance(s, p, d).0, k)
  {
  }

  lemma LocalKeepsInv(s: State, p: Payload, d: Done)
    requires Inv(s) && Executes(s, p) && IsLocal(s, p, LedgerFor(s, p.session).active, d)
    ensures Inv(Advance(s, p, d).0)
  {
    var t := Advance(s, p, d).0;
    SessionRoom(s, p, t.sessions[p.session]);
    forall id <- t.instances ensures HeldByOwner(t, id) {
      LocalKeepsHeld(s, p, d, id);
    }
    forall k <- t.sessions ensures OwnsLive(t, k) && Settled(t.sessions[k], k) {
      LocalKeepsOwner(s, p, d, k);
      assert k != p.session ==> Settled(s.sessions[k], k);
    }
  }

  // ---- Whole runs ------------------------------------------------------------------------------------

  /** One request arriving; `retry` marks the ones a client sends again. */
  datatype Delivery = Delivery(payload: Payload, answer: Answer, retry: bool)

  function Run(s: State, ds: seq<Delivery>): State
    decreases |ds|
  {
    if ds == [] then s else Run(Handle(s, ds[0].payload, ds[0].answer).0, ds[1..])
  }

  lemma {:induction false} RunKeepsInv(s: State, ds: seq<Delivery>)
    requires Inv(s)
    ensures Inv(Run(s, ds))
    decreases |ds|
  {
    if ds != [] {
      HandleKeepsInv(s, ds[0].payload, ds[0].answer);
      RunKeepsInv(Handle(s, ds[0].payload, ds[0].answer).0, ds[1..]);
    }
  }

  /** The sequence numbers a run executes for one session. */
  function Executed(s: State, ds: seq<Delivery>, session: string): seq<int>
    decreases |ds|
  {
    if ds == [] then []
    else
      var p := ds[0].payload;
      ExecutedHere(s, p, session) + Executed(Handle(s, p, ds[0].answer).0, ds[1..], session)
  }

  function ExecutedHere(s: State, p: Payload, session: string): seq<int> {
    if Executes(s, p) && p.session == session then [p.requestSeq] else []
  }

  function Upto(n: int): seq<int> {
    if n <= 0 then [] else Upto(n - 1) + [n]
  }

  /**
   Whatever the sessions interleave, whatever is repeated, skipped or malformed: a session executes
   1, 2, ..., last_seq, each once and in that order.
   */
  lemma {:induction false} ExecutedExactlyOnce(s: State, ds: seq<Delivery>, session: string)
    ensures Upto(LedgerFor(s, session).lastSeq) + Executed(s, ds, session)
         == Upto(LedgerFor(Run(s, ds), session).lastSeq)
    decreases |ds|
  {
    if ds != [] {
      var p := ds[0].payload;
      var t := Handle(s, p, ds[0].answer).0;
      ExecutedExactlyOnce(t, ds[1..], session);
      OneMoreExecuted(s, p, ds[0].answer, session);
      Reassociate(Upto(LedgerFor(s, session).lastSeq), ExecutedHere(s, p, session), Executed(t, ds[1..], session));
    }
  }

  lemma OneMoreExecuted(s: State, p: Payload, a: Answer, session: string)
    ensures Upto(LedgerFor(s, session).lastSeq) + ExecutedHere(s, p, session)
            == Upto(LedgerFor(Handle(s, p, a).0, session).lastSeq)
  {
  }

  lemma Reassociate(a: seq<int>, b: seq<int>, c: seq<int>)
    ensures a + (b + c) == (a + b) + c
  {
  }

  /** A request changes the server exactly when it is executed. */
  lemma ChangesIffExecuted(s: State, p: Payload, a: Answer)
    ensures Handle(s, p, a).0 == s <==> !Executes(s, p)
  {
    if Executes(s, p) {
      assert LedgerFor(Handle(s, p, a).0, p.session).lastSeq == LedgerFor(s, p.session).lastSeq + 1;
    }
  }

  /** No other session's ledger, and no instance of another session, is touched. */
  lemma SessionsAreIsolated(s: State, p: Payload, a: Answer, other: string)
    requires Inv(s) && other in s.sessions && other != p.session
    ensures var t := Handle(s, p, a).0;
            && other in t.sessions && t.sessions[other] == s.sessions[other]
            && (s.sessions[other].active.Some? ==>
                  var id := s.sessions[other].active.value;
                  id in s.instances && id in t.instances && t.instances[id] == s.instances[id])
  {
    assert OwnsLive(s, other);
    if Executes(s, p) {
      ExecuteIsLocal(s, p, a);
      if p.session in s.sessions { assert OwnsLive(s, p.session); }
    }
  }

  // ---- Retries ---------------------------------------------------------------------------------------

  /** Every marked delivery repeats, word for word, its session's latest executed request. */
  predicate RetriesRepeatTheLatest(s: State, ds: seq<Delivery>)
    decreases |ds|
  {
    ds == [] ||
    (&& (ds[0].retry ==> LedgerFor(s, ds[0].payload.session).lastRequest == Some(ds[0].payload))
     && RetriesRepeatTheLatest(Handle(s, ds[0].payload, ds[0].answer).0, ds[1..]))
  }

  function Originals(ds: seq<Delivery>): seq<Delivery> {
    if ds == [] then [] else (if ds[0].retry then [] else [ds[0]]) + Originals(ds[1..])
  }

  /** The responses to the deliveries that are not retries. */
  function Answers(s: State, ds: seq<Delivery>): seq<Response>
    decreases |ds|
  {
    if ds == [] then []
    else
      var h := Handle(s, ds[0].payload, ds[0].answer);
      (if ds[0].retry then [] else [h.1]) + Answers(h.0, ds[1..])
  }

  lemma RetryChangesNothing(s: State, p: Payload, a: Answer)
    requires Inv(s) && LedgerFor(s, p.session).lastRequest == Some(p)
    ensures Handle(s, p, a).0 == s && Some(Handle(s, p, a).1) == s.sessions[p.session].lastResponse
  {
    assert p.session in s.sessions && Settled(s.sessions[p.session], p.session);
  }

  /** Retries inserted anywhere change neither the final server nor any other response. */
  lemma {:induction false} RetriesAreInvisible(s: State, ds: seq<Delivery>)
    requires Inv(s) && RetriesRepeatTheLatest(s, ds)
    ensures Run(s, ds) == Run(s, Originals(ds))
    ensures Answers(s, ds) == Answers(s, Originals(ds))
    decreases |ds|
  {
    if ds != [] {
      var p := ds[0].payload;
      HandleKeepsInv(s, p, ds[0].answer);
      RetriesAreInvisible(Handle(s, p, ds[0].answer).0, ds[1..]);
      if ds[0].retry {
        RetryChangesNothing(s, p, ds[0].answer);
        assert Originals(ds) == Originals(ds[1..]);
      } else {
        assert Originals(ds)[0] == ds[0] && Originals(ds)[1..] == Originals(ds[1..]);
      }
    }
  }

  /** A retry gets the very response its request was given, as long as the session has not moved on. */
  lemma {:induction false} RetryReplaysItsResponse(s: State, p: Payload, a: Answer, between: seq<Delivery>,
      later: Answer)
    requires Inv(s) && Executes(s, p)
    requires forall d <- between :: d.payload.session == p.session ==> d.payload == p
    ensures var first := Handle(s, p, a);
            var now := Run(first.0, between);
            Handle(now, p, later) == (now, first.1)
  {
    var first := Handle(s, p, a);
    HandleKeepsInv(s, p, a);
    LedgerSurvives(first.0, p, between);
    RunKeepsInv(first.0, between);
    RetryChangesNothing(Run(first.0, between), p, later);
  }

  lemma {:induction false} LedgerSurvives(s: State, p: Payload, ds: seq<Delivery>)
    requires Inv(s) && LedgerFor(s, p.session).lastRequest == Some(p)
    requires forall d <- ds :: d.payload.session == p.session ==> d.payload == p
    ensures LedgerFor(Run(s, ds), p.session) == LedgerFor(s, p.session)
    decreases |ds|
  {
    if ds != [] {
      assert ds[0] in ds;
      var q := ds[0].payload;
      HandleKeepsInv(s, q, ds[0].answer);
      if q == p { RetryChangesNothing(s, p, ds[0].answer); }
      LedgerSurvives(Handle(s, q, ds[0].answer).0, p, ds[1..]);
    }
  }

  // ---- Ownership -------------------------------------------------------------------------------------

  /** Active ids and live instances correspond one to one. */
  lemma OwnershipIsABijection(maxSessions: nat, ds: seq<Delivery>)
    ensures var s := Run(Initial(maxSessions), ds);
            && |s.sessions| <= maxSessions
            && (forall k | k in s.sessions && s.sessions[k].active.Some? :: s.sessions[k].active.value in s.instances)
            && (forall id <- s.instances :: s.instances[id] != [] && s.instances[id][0].session in s.sessions
                                            && s.sessions[s.instances[id][0].session].active == Some(id))
            && (forall j, k | j in s.sessions && k in s.sessions && s.sessions[j].active.Some? ::
                  s.sessions[j].active == s.sessions[k].active ==> j == k)
  {
    var s := Run(Initial(maxSessions), ds);
    InitialInv(maxSessions, 1);
    assert Initial(maxSessions).(serial := 1) == Initial(maxSessions);
    RunKeepsInv(Initial(maxSessions), ds);
    RunKeepsLimit(Initial(maxSessions), ds);
    forall id <- s.instances ensures HeldByOwner(s, id) {}
    forall k <- s.sessions ensures OwnsLive(s, k) {}
  }

  lemma {:induction false} RunKeepsLimit(s: State, ds: seq<Delivery>)
    ensures Run(s, ds).maxSessions == s.maxSessions
    decreases |ds|
  {
    if ds != [] { RunKeepsLimit(Handle(s, ds[0].payload, ds[0].answer).0, ds[1..]); }
  }

  /** The `unknown instance_id` branch is never taken. */
  lemma UnknownInstanceIsUnreachable(s: State, p: Payload, a: Answer)
    requires Inv(s) && Executes(s, p)
    ensures Handle(s, p, a).1.detail != UnknownInstance
  {
    ExecuteIsLocal(s, p, a);
  }

  /** A live instance has been handed its owner's requests only, each at most once, in order. */
  lemma InstancesSeeEachRequestOnce(maxSessions: nat, ds: seq<Delivery>, id: string)
    requires id in Run(Initial(maxSessions), ds).instances
    ensures var h := Run(Initial(maxSessions), ds).instances[id];
            && (forall i, j | 0 <= i < j < |h| :: h[i].requestSeq < h[j].requestSeq && h[i] != h[j])
            && (forall i, j | 0 <= i < j < |h| :: h[i].session == h[j].session)
  {
    InitialInv(maxSessions, 1);
    assert Initial(maxSessions).(serial := 1) == Initial(maxSessions);
    RunKeepsInv(Initial(maxSessions), ds);
    assert HeldByOwner(Run(Initial(maxSessions), ds), id);
  }

  lemma OnlyTheNextIdIsAdded(active: Option<string>, instances: map<string, seq<Payload>>, serial: nat, p: Payload,
      a: Answer)
    ensures var d := Execute(active, instances, serial, p, a);
            d.instances.Keys <= instances.Keys + {TextIds.InstanceId(serial)} && d.serial >= serial
  {
  }

  lemma NotGivenAgain(s: State, p: Payload, a: Answer, n: nat)
    requires 1 <= n < s.serial && TextIds.InstanceId(n) !in s.instances
    ensures var t := Handle(s, p, a).0; TextIds.InstanceId(n) !in t.instances && t.serial >= s.serial
  {
    TextIds.InstanceIdsAreDistinct(n, s.serial);
    OnlyTheNextIdIsAdded(LedgerFor(s, p.session).active, s.instances, s.serial, p, a);
  }

  /** An id that was given out and is no longer live never comes back. */
  lemma {:induction false} InstanceIdsAreNeverReused(s: State, ds: seq<Delivery>, n: nat)
    requires Inv(s) && 1 <= n < s.serial && TextIds.InstanceId(n) !in s.instances
    ensures TextIds.InstanceId(n) !in Run(s, ds).instances
    decreases |ds|
  {
    if ds != [] {
      var p := ds[0].payload;
      var t := Handle(s, p, ds[0].answer).0;
      HandleKeepsInv(s, p, ds[0].answer);
      NotGivenAgain(s, p, ds[0].answer, n);
      InstanceIdsAreNeverReused(t, ds[1..], n);
    }
  }
}
