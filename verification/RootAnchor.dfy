/**
 The root run's replay coordinates (`commit_action`, `_maybe_capture_map_snapshot` and the combat
 hand-over in API/instance_whole_run.py).

 The coordinator records a map snapshot, the room entered from it and every action since, hidden
 auto-actions included.  As long as the record is faithful, replaying it gives the live state.  A
 combat breaks faithfulness until the next map capture, and so do a commit that raises part-way and
 one whose recording raises at the map, before the capture.
 */
module RootAnchor {
  import opened Wrappers
  import opened Identifiers
  import opened EventRng
  import opened Emulator
  import opened BranchReplay
  import EventBatch

  /** `faithful` is bookkeeping of the model only: nothing has happened that the record misses. */
  datatype Root<S> = Root(
    live: S, snapshot: Option<string>, roomId: Option<int>, prefix: seq<int>, faithful: bool)

  /** What the emulator's save and load promise each other at a map boundary. */
  ghost predicate SnapshotsRoundTrip<S(!new)>(m: Machine<S>) {
    forall s :: m.boundary(s) == MapSelect ==> m.load(m.save(s)) == Some(s)
  }

  function AnchorCalls<S>(r: Root<S>): seq<Call>
    requires r.snapshot.Some?
  {
    [Load(r.snapshot.value)] + (if r.roomId.Some? then [Enter(r.roomId.value)] else []) + Acts(r.prefix)
  }

  /** A faithful record replays to the live state, from any state of the replaying process. */
  ghost predicate Anchored<S(!new)>(m: Machine<S>, r: Root<S>) {
    r.faithful ==>
      && (r.snapshot.Some? ==> forall junk :: Run(m, junk, AnchorCalls(r)) == Some(r.live))
      && (m.boundary(r.live) == MapSelect ==> r.snapshot.Some? && r.roomId.None? && r.prefix == [])
      && (r.snapshot.Some? && r.roomId.None? ==> m.boundary(r.live) == MapSelect)
  }

  /** `_maybe_capture_map_snapshot`. */
  function Capture<S>(m: Machine<S>, r: Root<S>): Root<S> {
    if m.boundary(r.live) == MapSelect then Root(r.live, Some(m.save(r.live)), None, [], true) else r
  }

  datatype Event<S> =
    /** A root commit outside combat that does not enter one; its recording may raise before the capture. */
    | Commit(actionId: int, recorded: bool)
    /** Choosing a combat room: the phase adopts the board, the prefix is emptied. */
    | EnterCombat(room: int, recorded: bool)
    /** Anything the combat phase does to the live game. */
    | InCombat(next: S)
    /** The phase is folded: rewards are drained and only those auto-actions are recorded. */
    | LeaveCombat

  /** The state after the part of a commit that got through, when it raises; `unknown` stands for it. */
  function Broken<S>(r: Root<S>, unknown: S): Root<S> {
    r.(live := unknown, faithful := false)
  }

  /** A commit's own entries, before the capture: the room or the action, then the hidden steps. */
  function Extended<S>(m: Machine<S>, r: Root<S>, actionId: int, settled: S, autos: seq<int>): Root<S> {
    if m.boundary(r.live) == MapSelect then r.(live := settled, roomId := Some(actionId), prefix := autos)
    else r.(live := settled, prefix := r.prefix + [actionId] + autos)
  }

  /** The recording raised: no capture, so a map that was reached is missed. */
  function Uncaptured<S>(m: Machine<S>, r: Root<S>): Root<S> {
    r.(faithful := r.faithful && m.boundary(r.live) != MapSelect)
  }

  /** The call a commit makes first, and where it leads. */
  function Taken<S>(m: Machine<S>, r: Root<S>, actionId: int): Option<S> {
    if m.boundary(r.live) == MapSelect then m.enter(r.live, actionId) else m.step(r.live, actionId)
  }

  /** The commit's call returns, and what it leads to settles. */
  predicate GoesThrough<S>(m: Machine<S>, live: S, actionId: int) {
    var t := if m.boundary(live) == MapSelect then m.enter(live, actionId) else m.step(live, actionId);
    t.Some? && Drain(m, t.value, DEFAULT_MAX_AUTO_ACTIONS).Some?
  }

  /** One event; `unknown` is where the game ends up if a call raises half-way. */
  function Apply<S>(m: Machine<S>, r: Root<S>, e: Event<S>, unknown: S): Root<S> {
    match e
    case Commit(id, recorded) =>
      var t := Taken(m, r, id);
      if t.None? then Broken(r, unknown)
      else
        var d := Drain(m, t.value, DEFAULT_MAX_AUTO_ACTIONS);
        if d.None? then
          Broken(if m.boundary(r.live) == MapSelect then r.(roomId := Some(id)) else r.(prefix := r.prefix + [id]),
              unknown)
        else
          var next := Extended(m, r, id, d.value.0, d.value.1);
          if recorded then Capture(m, next) else Uncaptured(m, next)
    case EnterCombat(room, recorded) =>
      var t := m.enter(r.live, room);
      if t.None? then Broken(r, unknown)
      else
        var entered := Root(t.value, r.snapshot, Some(room), [], false);
        if recorded then Capture(m, entered) else entered
    case InCombat(next) => r.(live := next, faithful := false)
    case LeaveCombat =>
      var d := Drain(m, r.live, DEFAULT_MAX_AUTO_ACTIONS);
      if d.None? then Broken(r, unknown)
      else Capture(m, r.(live := d.value.0, prefix := d.value.1, faithful := false))
  }

  class RootRun<S> {
    const session: Session<S>
    var mapSnapshot: Option<string>
    var roomId: Option<int>
    var actionPrefix: seq<int>
    ghost var faithful: bool

    ghost function Abs(): Root<S>
      reads this, session
    {
      Root(session.state, mapSnapshot, roomId, actionPrefix, faithful)
    }

    /** A fresh run: initial rewards are drained and recorded, then the map is captured if it is up. */
    constructor (s: Session<S>)
      modifies s
      ensures session == s
      ensures var d := Drain(s.machine, old(s.state), DEFAULT_MAX_AUTO_ACTIONS);
              d.Some? ==> Abs() == Capture(s.machine, Root(d.value.0, None, None, d.value.1, true))
    {
      session := s;
      mapSnapshot, roomId, actionPrefix, faithful := None, None, [], true;
      new;
      var autos := DrainTrivialRewardFrontier(session, DEFAULT_MAX_AUTO_ACTIONS);
      if autos.Some? {
        actionPrefix := actionPrefix + autos.value;
        MaybeCaptureMapSnapshot();
      }
    }

    method MaybeCaptureMapSnapshot()
      modifies this
      ensures Abs() == Capture(session.machine, old(Abs()))
    {
      if session.machine.boundary(session.state) == MapSelect {
        mapSnapshot := Some(session.machine.save(session.state));
        roomId := None;
        actionPrefix := [];
        faithful := true;
      }
    }

    /** The non-combat part of `commit_action`; `recorded` says whether the recording reaches the capture. */
    method CommitAction(actionId: int, recorded: bool) returns (ok: bool)
      modifies this, session
      ensures Abs() == Apply(session.machine, old(Abs()), Event.Commit(actionId, recorded), session.state)
      ensures ok <==> recorded && GoesThrough(session.machine, old(session.state), actionId)
      ensures ok ==> (faithful <==> old(faithful) || session.machine.boundary(session.state) == MapSelect)
      ensures !ok && recorded ==> !faithful
    {
      ok := TakeAndDrain(actionId);
      if !ok { return; }
      if recorded {
        MaybeCaptureMapSnapshot();
      } else {
        faithful := faithful && session.machine.boundary(session.state) != MapSelect;
        ok := false;
      }
    }

    /** The step, the drain, and what both leave in the record. */
    method TakeAndDrain(actionId: int) returns (ok: bool)
      modifies this, session
      ensures var m, r := session.machine, old(Abs());
              var t := Taken(m, r, actionId);
              var d := if t.None? then None else Drain(m, t.value, DEFAULT_MAX_AUTO_ACTIONS);
              && ok == d.Some?
              && (ok ==> Abs() == Extended(m, r, actionId, d.value.0, d.value.1))
              && (!ok ==> Abs() == Apply(m, r, Event.Commit(actionId, true), session.state))
              && (!ok ==> Abs() == Apply(m, r, Event.Commit(actionId, false), session.state) && !faithful)
    {
      var atMap := session.machine.boundary(session.state) == MapSelect;
      ok := session.Invoke(if atMap then Enter(actionId) else Act(actionId));
      if !ok {
        faithful := false;
        return;
      }
      if atMap {
        roomId := Some(actionId);
      } else {
        actionPrefix := actionPrefix + [actionId];
      }
      var autos := DrainTrivialRewardFrontier(session, DEFAULT_MAX_AUTO_ACTIONS);
      if autos.None? {
        faithful := false;
        return false;
      }
      actionPrefix := if atMap then autos.value else actionPrefix + autos.value;
    }
  }

  // ---- What an event does, said of the machine alone ----------------------------------------------------

  /** The snapshot at the map, with nothing after it. */
  ghost predicate MapCaptured<S>(m: Machine<S>, next: Root<S>) {
    next.snapshot == Some(m.save(next.live)) && next.roomId == None && next.prefix == [] && next.faithful
  }

  /** Off the map a commit steps the chosen action, then the rewards, and records both. */
  lemma CommitTakesItsAction<S>(m: Machine<S>, r: Root<S>, id: int, recorded: bool, unknown: S, t: S, u: S,
      autos: seq<int>)
    requires m.boundary(r.live) != MapSelect && m.step(r.live, id) == Some(t) && Settles(m, t, u, autos)
    ensures GoesThrough(m, r.live, id)
    ensures var next := Apply(m, r, Event.Commit(id, recorded), unknown);
            && next.live == u
            && if m.boundary(u) == MapSelect && recorded then MapCaptured(m, next)
               else
                 && next.snapshot == r.snapshot && next.roomId == r.roomId
                 && next.prefix == r.prefix + [id] + autos
                 && next.faithful == (r.faithful && m.boundary(u) != MapSelect)
  {
    DrainSettles(m, t, u, autos);
  }

  /** At the map it enters the chosen room, and the record starts over from that room. */
  lemma CommitEntersItsRoom<S>(m: Machine<S>, r: Root<S>, room: int, recorded: bool, unknown: S, t: S, u: S,
      autos: seq<int>)
    requires m.boundary(r.live) == MapSelect && m.enter(r.live, room) == Some(t) && Settles(m, t, u, autos)
    ensures GoesThrough(m, r.live, room)
    ensures var next := Apply(m, r, Event.Commit(room, recorded), unknown);
            && next.live == u
            && if m.boundary(u) == MapSelect && recorded then MapCaptured(m, next)
               else
                 && next.snapshot == r.snapshot && next.roomId == Some(room) && next.prefix == autos
                 && next.faithful == (r.faithful && m.boundary(u) != MapSelect)
  {
    DrainSettles(m, t, u, autos);
  }

  /** A call that raises leaves the record as it was; a drain that raises leaves the step in it; neither is faithful. */
  lemma FailedCommitLeaves<S(!new)>(m: Machine<S>, r: Root<S>, id: int, recorded: bool, unknown: S)
    requires var t := if m.boundary(r.live) == MapSelect then m.enter(r.live, id) else m.step(r.live, id);
             t.None? || forall u, autos :: !Settles(m, t.value, u, autos)
    ensures !GoesThrough(m, r.live, id)
    ensures var next := Apply(m, r, Event.Commit(id, recorded), unknown);
            var atMap := m.boundary(r.live) == MapSelect;
            var raised := (if atMap then m.enter(r.live, id) else m.step(r.live, id)).None?;
            && next.live == unknown && !next.faithful && next.snapshot == r.snapshot
            && next.roomId == (if atMap && !raised then Some(id) else r.roomId)
            && next.prefix == if atMap || raised then r.prefix else r.prefix + [id]
  {
    var t := if m.boundary(r.live) == MapSelect then m.enter(r.live, id) else m.step(r.live, id);
    if t.Some? && Drain(m, t.value, DEFAULT_MAX_AUTO_ACTIONS).Some? {
      var (u, autos) := Drain(m, t.value, DEFAULT_MAX_AUTO_ACTIONS).value;
      DrainSettles(m, t.value, u, autos);
    }
  }

  /** A combat room is entered undrained and its record is empty; leaving a fight records the rewards alone. */
  lemma CombatRecords<S>(m: Machine<S>, r: Root<S>, room: int, recorded: bool, unknown: S, u: S, autos: seq<int>)
    ensures var next := Apply(m, r, EnterCombat(room, recorded), unknown);
            if m.enter(r.live, room).None? then next == Root(unknown, r.snapshot, r.roomId, r.prefix, false)
            else if recorded && m.boundary(m.enter(r.live, room).value) == MapSelect
            then Some(next.live) == m.enter(r.live, room) && MapCaptured(m, next)
            else next == Root(m.enter(r.live, room).value, r.snapshot, Some(room), [], false)
    ensures Settles(m, r.live, u, autos) ==>
              var next := Apply(m, r, LeaveCombat, unknown);
              && next.live == u
              && if m.boundary(u) == MapSelect then MapCaptured(m, next)
                 else next == Root(u, r.snapshot, r.roomId, autos, false)
  {
    DrainSettles(m, r.live, u, autos);
  }

  lemma CaptureAnchors<S(!new)>(m: Machine<S>, r: Root<S>)
    requires SnapshotsRoundTrip(m)
    requires Anchored(m, r) || m.boundary(r.live) == MapSelect || !r.faithful
    ensures Anchored(m, Capture(m, r))
  {
    if m.boundary(r.live) == MapSelect {
      var c := Capture(m, r);
      forall junk
        ensures Run(m, junk, AnchorCalls(c)) == Some(c.live)
      {
        assert AnchorCalls(c) == [Load(m.save(r.live))];
        assert AnchorCalls(c)[1..] == [];
      }
    }
  }

  /** The commit's own steps, hidden ones included, take the record from anchor to anchor. */
  lemma CommitExtendsAnchor<S(!new)>(m: Machine<S>, r: Root<S>, actionId: int, settled: S, autos: seq<int>)
    requires r.faithful && r.snapshot.Some? && Anchored(m, r)
    requires var t := Taken(m, r, actionId);
             t.Some? && Drain(m, t.value, DEFAULT_MAX_AUTO_ACTIONS) == Some((settled, autos))
    ensures var next := Extended(m, r, actionId, settled, autos);
            forall junk :: Run(m, junk, AnchorCalls(next)) == Some(settled)
  {
    var atMap := m.boundary(r.live) == MapSelect;
    var call := if atMap then Enter(actionId) else Act(actionId);
    var t := Perform(m, r.live, call).value;
    var next := Extended(m, r, actionId, settled, autos);
    DrainedStateIsStepped(m, t, DEFAULT_MAX_AUTO_ACTIONS);
    if !atMap {
      ThreeActs(r.prefix, actionId, autos);
    }
    assert AnchorCalls(next) == AnchorCalls(r) + [call] + Acts(autos);
    forall junk
      ensures Run(m, junk, AnchorCalls(next)) == Some(settled)
    {
      assert Run(m, r.live, [call]) == Some(t);
      RunConcat(m, junk, AnchorCalls(r), [call]);
      RunConcat(m, junk, AnchorCalls(r) + [call], Acts(autos));
    }
  }

  /**
   A commit that went through and whose recording raised before the capture leaves a record that may
   still be called faithful exactly if it was, and the settled state is not at the map.
   */
  lemma UnrecordedCommitAnchorsIff<S(!new)>(m: Machine<S>, r: Root<S>, actionId: int, settled: S, autos: seq<int>)
    requires Anchored(m, r)
    requires var t := Taken(m, r, actionId);
             t.Some? && Drain(m, t.value, DEFAULT_MAX_AUTO_ACTIONS) == Some((settled, autos))
    ensures var next := Extended(m, r, actionId, settled, autos);
            && (r.faithful ==> (Anchored(m, next) <==> m.boundary(settled) != MapSelect))
            && Anchored(m, Uncaptured(m, next))
            && (Uncaptured(m, next).faithful <==> r.faithful && m.boundary(settled) != MapSelect)
  {
    if r.faithful && r.snapshot.Some? {
      CommitExtendsAnchor(m, r, actionId, settled, autos);
    }
  }

  lemma CommitKeepsAnchor<S(!new)>(m: Machine<S>, r: Root<S>, actionId: int, recorded: bool, unknown: S)
    requires SnapshotsRoundTrip(m) && Anchored(m, r)
    ensures Anchored(m, Apply(m, r, Event.Commit(actionId, recorded), unknown))
  {
    var t := Taken(m, r, actionId);
    if t.Some? && Drain(m, t.value, DEFAULT_MAX_AUTO_ACTIONS).Some? {
      var (settled, autos) := Drain(m, t.value, DEFAULT_MAX_AUTO_ACTIONS).value;
      UnrecordedCommitAnchorsIff(m, r, actionId, settled, autos);
      CaptureAnchors(m, Extended(m, r, actionId, settled, autos));
    }
  }

  lemma EventKeepsAnchor<S(!new)>(m: Machine<S>, r: Root<S>, e: Event<S>, unknown: S)
    requires SnapshotsRoundTrip(m) && Anchored(m, r)
    ensures Anchored(m, Apply(m, r, e, unknown))
  {
    match e
    case Commit(id, recorded) => CommitKeepsAnchor(m, r, id, recorded, unknown);
    case EnterCombat(room, _) =>
      if m.enter(r.live, room).Some? {
        CaptureAnchors(m, Root(m.enter(r.live, room).value, r.snapshot, Some(room), [], false));
      }
    case InCombat(next) =>
    case LeaveCombat =>
      var d := Drain(m, r.live, DEFAULT_MAX_AUTO_ACTIONS);
      if d.Some? {
        CaptureAnchors(m, r.(live := d.value.0, prefix := d.value.1, faithful := false));
      }
  }

  function RunEvents<S>(m: Machine<S>, r: Root<S>, events: seq<(Event<S>, S)>): Root<S>
    decreases |events|
  {
    if events == [] then r else RunEvents(m, Apply(m, r, events[0].0, events[0].1), events[1..])
  }

  /**
   Root anchor invariant: after any sequence of commits, recorded or not, combats and failures, a
   record that is still faithful and has a snapshot replays to the live root state.
   */
  lemma {:induction false} RootAnchorInvariant<S(!new)>(m: Machine<S>, r: Root<S>, events: seq<(Event<S>, S)>)
    requires SnapshotsRoundTrip(m) && Anchored(m, r)
    ensures Anchored(m, RunEvents(m, r, events))
    decreases |events|
  {
    if events != [] {
      EventKeepsAnchor(m, r, events[0].0, events[0].1);
      RootAnchorInvariant(m, Apply(m, r, events[0].0, events[0].1), events[1..]);
    }
  }

  /** A new run is anchored, whatever its initial drain took. */
  lemma FreshRunIsAnchored<S(!new)>(m: Machine<S>, initial: S)
    requires SnapshotsRoundTrip(m) && Drain(m, initial, DEFAULT_MAX_AUTO_ACTIONS).Some?
    ensures Anchored(m, FreshRun(m, initial))
  {
    var (settled, autos) := Drain(m, initial, DEFAULT_MAX_AUTO_ACTIONS).value;
    CaptureAnchors(m, Root(settled, None, None, autos, true));
  }

  /** What the constructor leaves when the initial drain goes through. */
  function FreshRun<S>(m: Machine<S>, initial: S): Root<S>
    requires Drain(m, initial, DEFAULT_MAX_AUTO_ACTIONS).Some?
  {
    var (settled, autos) := Drain(m, initial, DEFAULT_MAX_AUTO_ACTIONS).value;
    Capture(m, Root(settled, None, None, autos, true))
  }

  /**
   A commit that goes through stays faithful unless its recording raised at the map, and becomes
   faithful again exactly where a map is captured.
   */
  lemma CompletedCommitStaysFaithful<S>(m: Machine<S>, r: Root<S>, actionId: int, recorded: bool, unknown: S)
    requires var t := Taken(m, r, actionId);
             t.Some? && Drain(m, t.value, DEFAULT_MAX_AUTO_ACTIONS).Some?
    ensures var next := Apply(m, r, Event.Commit(actionId, recorded), unknown);
            var atMap := m.boundary(next.live) == MapSelect;
            next.faithful <==> if recorded then r.faithful || atMap else r.faithful && !atMap
  {
  }

  /** A small emulator: room 10, every step adds one, state 0 is the map. */
  const COUNTER: Machine<int> := Machine(
    (snapshot: string) => Some(0),
    (s: int, room: int) => Some(10),
    (s: int, id: int) => Some(s + 1),
    (s: int, o: RngState) => Some(s),
    (s: int) => if s == 0 then MapSelect else Stable,
    (s: int) => [],
    (s: int) => "")

  /**
   Folding a combat records only the drained rewards, so the record then stands for a different
   state: the anchor cannot be promised across a combat, only from the next map capture on.
   */
  lemma CombatBreaksTheRecord()
    ensures SnapshotsRoundTrip(COUNTER)
    ensures var r := Root(0, Some(""), None, [], true);
            var after := RunEvents(COUNTER, r, [(EnterCombat(1, true), 0), (InCombat(12), 0), (LeaveCombat, 0)]);
            && Anchored(COUNTER, r)
            && after.live == 12 && after.snapshot == Some("") && !after.faithful
            && Run(COUNTER, 0, AnchorCalls(after)) == Some(10)
  {
    var r := Root(0, Some(""), None, [], true);
    assert AnchorCalls(r)[1..] == [];
    var events: seq<(Event<int>, int)> := [(EnterCombat(1, true), 0), (InCombat(12), 0), (LeaveCombat, 0)];
    var a := Apply(COUNTER, r, EnterCombat(1, true), 0);
    var b := Apply(COUNTER, a, InCombat(12), 0);
    var c := Apply(COUNTER, b, LeaveCombat, 0);
    assert events[1..][1..][1..] == [];
    assert RunEvents(COUNTER, r, events) == RunEvents(COUNTER, a, events[1..])
        == RunEvents(COUNTER, b, events[1..][1..]) == RunEvents(COUNTER, c, []) == c;
    assert AnchorCalls(c)[1..] == [Enter(1)];
    assert [Enter(1)][1..] == [];
    assert Run(COUNTER, 0, AnchorCalls(c)) == Run(COUNTER, 0, [Enter(1)]) == Run(COUNTER, 10, []);
  }

  /** A small emulator with two maps, 0 and 20; from the first room one step leads to the second map. */
  const TWO_MAPS: Machine<int> := Machine(
    (snapshot: string) => Some(if snapshot == "" then 0 else 20),
    (s: int, room: int) => Some(s + 10),
    (s: int, id: int) => Some(s + 10),
    (s: int, o: RngState) => Some(s),
    (s: int) => if s == 0 || s == 20 then MapSelect else Stable,
    (s: int) => [],
    (s: int) => if s == 0 then "" else "second")

  lemma UnrecordedStep(r: Root<int>, actionId: int)
    ensures Apply(TWO_MAPS, r, Event.Commit(actionId, false), 0) ==
            Uncaptured(TWO_MAPS, Extended(TWO_MAPS, r, actionId, r.live + 10, []))
  {
    assert Drain(TWO_MAPS, r.live + 10, DEFAULT_MAX_AUTO_ACTIONS) == Some((r.live + 10, []));
  }

  /**
   Three commits whose recordings raise: a room, a step back to a map, the next room.  Every call into
   the emulator succeeded, and still the record replays to the first room while the run is in the other.
   */
  lemma UnrecordedMapIsMissed()
    ensures SnapshotsRoundTrip(TWO_MAPS)
    ensures var r := Root(0, Some(""), None, [], true);
            var c := Event.Commit(1, false);
            var after := RunEvents(TWO_MAPS, r, [(c, 0), (c, 0), (c, 0)]);
            && Anchored(TWO_MAPS, r)
            && after == Root(30, Some(""), Some(1), [], false)
            && Run(TWO_MAPS, 0, AnchorCalls(after)) == Some(10)
  {
    var r := Root(0, Some(""), None, [], true);
    var c := Event.Commit(1, false);
    var x, y, z := Root(10, Some(""), Some(1), [], true), Root(20, Some(""), Some(1), [1], false),
                   Root(30, Some(""), Some(1), [], false);
    assert AnchorCalls(r)[1..] == [];
    UnrecordedStep(r, 1);
    UnrecordedStep(x, 1);
    UnrecordedStep(y, 1);
    assert [] + [1] + [] == [1];
    ThreeEvents(TWO_MAPS, r, x, y, z, (c, 0));
    assert AnchorCalls(z) == [Load(""), Enter(1)];
    assert [Load(""), Enter(1)][1..] == [Enter(1)] && [Enter(1)][1..] == [];
    assert Run(TWO_MAPS, 0, AnchorCalls(z)) == Run(TWO_MAPS, 0, [Enter(1)]) == Run(TWO_MAPS, 10, []);
  }

  lemma ThreeEvents<S>(m: Machine<S>, r: Root<S>, x: Root<S>, y: Root<S>, z: Root<S>, e: (Event<S>, S))
    requires Apply(m, r, e.0, e.1) == x && Apply(m, x, e.0, e.1) == y && Apply(m, y, e.0, e.1) == z
    ensures RunEvents(m, r, [e, e, e]) == z
  {
    var events := [e, e, e];
    assert events[1..][1..][1..] == [];
    assert RunEvents(m, z, events[1..][1..][1..]) == z;
    assert RunEvents(m, y, events[1..][1..]) == z;
    assert RunEvents(m, x, events[1..]) == z;
  }

  /** `_root_view` at an event. */
  function RootView<S>(m: Machine<S>, r: Root<S>): View {
    View(r.snapshot, r.roomId, r.prefix, m.boundary(r.live), m.legal(r.live), false)
  }

  /** A faithful root at an event is exactly what the replay theorem asks of a root. */
  lemma FaithfulRootIsDescribed<S(!new)>(m: Machine<S>, r: Root<S>, junk: S)
    requires Anchored(m, r) && r.faithful && r.snapshot.Some? && m.boundary(r.live) == EventChoice
    ensures Describes(m, junk, RootView(m, r), None, r.live)
  {
    assert BootstrapCalls(ItemFor(RootView(m, r), None, None)) == AnchorCalls(r);
  }

  /**
   End to end.  Start a run, let anything happen to it, and let it stand faithful at an event with a
   snapshot.  Prepare a root Branch there and chain Event Branches below it.  Whatever the workers did
   before, the leaf's coordinates rebuild the state its worker settled in, which is the live state with
   the override and then the chain's own steps; and the next request below it meets no mismatch.
   */
  lemma BranchesOfAnyRunAreRebuilt<S(!new)>(
      m: Machine<S>, initial: S, events: seq<(Event<S>, S)>, r: Root<S>, c: EventBatch.Coord,
      request: EventBatch.Request, base: RngState, derive: (RngState, int) -> RngState, plan: Plan,
      junk: S, other: S, actions: seq<int>, next: int)
    requires SnapshotsRoundTrip(m) && Drain(m, initial, DEFAULT_MAX_AUTO_ACTIONS).Some?
    requires r == RunEvents(m, FreshRun(m, initial), events)
    requires r.faithful && r.snapshot.Some? && m.boundary(r.live) == EventChoice
    requires request.parent == ROOT_BRANCH_ID && EventBatch.Prepare(c, request, base, |r.prefix|, derive) == Some(plan)
    requires actions != [] && Descend(m, junk, RootView(m, r), r.live, plan, actions).Some?
    ensures var (leaf, settled) := Descend(m, junk, RootView(m, r), r.live, plan, actions).value;
            leaf.boundary != MapSelect ==>
              && leaf.snapshot.Some?
              && r.prefix <= leaf.prefix
              && Bootstrap(m, other, ItemFor(leaf, Some(next), Some(plan))) == Some(settled)
              && Run(m, r.live, [Override(plan.override)] + Acts(leaf.prefix[|r.prefix|..])) == Some(settled)
              && !Execute(m, other, ItemFor(leaf, Some(next), Some(plan))).Mismatch?
  {
    FreshRunIsAnchored(m, initial);
    RootAnchorInvariant(m, FreshRun(m, initial), events);
    FaithfulRootIsDescribed(m, r, junk);
    ReplayAtEveryDepth(m, junk, other, RootView(m, r), r.live, plan, actions, next);
  }

  /** The theorem has instances: a run enters its first room, meets an event, and opens one Branch. */
  lemma RebuildingHappens(plan: Plan)
    requires plan.applyBefore == 0
    ensures SnapshotsRoundTrip(WALK) && Drain(WALK, 0, DEFAULT_MAX_AUTO_ACTIONS).Some?
    ensures var r := RunEvents(WALK, FreshRun(WALK, 0), [(Event.Commit(1, true), 0)]);
            && r == Root(10, Some(""), Some(1), [], true) && WALK.boundary(r.live) == EventChoice
            && Descend(WALK, 0, RootView(WALK, r), r.live, plan, [5]) == Some((RootView(WALK, r).(prefix := [5]), 115))
  {
    var first, r := Root(0, Some(""), None, [], true), Root(10, Some(""), Some(1), [], true);
    var e: (Event<int>, int) := (Event.Commit(1, true), 0);
    assert Drain(WALK, 0, DEFAULT_MAX_AUTO_ACTIONS) == Some((0, []));
    assert Drain(WALK, 10, DEFAULT_MAX_AUTO_ACTIONS) == Some((10, []));
    assert FreshRun(WALK, 0) == first;
    assert Apply(WALK, first, e.0, e.1) == r;
    assert [e][1..] == [];
    assert RunEvents(WALK, first, [e]) == RunEvents(WALK, r, []);
    assert RootView(WALK, r) == View(Some(""), Some(1), [], EventChoice, [], false);
    ReplayHappens(plan);
  }
}
