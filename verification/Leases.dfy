/** Worker liveness: leases that expire, the watcher that notices, and the
    worker records kept in step with both. */
module Leases {
  import opened Records
  import opened Options

  // The lease manager.

  datatype Manager = Manager(nextId: nat, keyById: map<nat, string>, channels: seq<seq<string>>)

  function Granted(m: Manager, key: string): Manager
  {
    m.(nextId := m.nextId + 1, keyById := m.keyById[m.nextId + 1 := key])
  }

  /** A lease's end, by expiry or revocation: every watcher is sent its key. */
  function Dropped(m: Manager, id: nat): Manager
  {
    if id !in m.keyById then m
    else m.(keyById := m.keyById - {id},
            channels := seq(|m.channels|, i requires 0 <= i < |m.channels| => m.channels[i] + [m.keyById[id]]))
  }

  function Received(m: Manager, c: nat): Manager
    requires c < |m.channels| && m.channels[c] != []
  {
    m.(channels := m.channels[c := m.channels[c][1..]])
  }

  class FakeManager {
    var nextId: nat
    var keyById: map<nat, string>
    var watchers: seq<seq<string>>

    ghost function View(): Manager
      reads this
    {
      Manager(nextId, keyById, watchers)
    }

    constructor ()
      ensures View() == Manager(0, map[], [])
    {
      nextId, keyById, watchers := 0, map[], [];
    }

    method Grant(key: string) returns (id: nat)
      modifies this
      ensures View() == Granted(old(View()), key)
      ensures id == nextId == old(nextId) + 1 && keyById == old(keyById)[id := key] && watchers == old(watchers)
    {
      nextId := nextId + 1;
      keyById := keyById[nextId := key];
      return nextId;
    }

    method Renew(id: nat) returns (found: bool)
      ensures found <==> id in View().keyById
    {
      return id in keyById;
    }

    /** Also the explicit revocation, which has the same effect. */
    method Expire(id: nat)
      modifies this
      ensures View() == Dropped(old(View()), id)
      ensures id !in keyById && forall l :: l in old(keyById) && l != id ==> l in keyById && keyById[l] == old(keyById)[l]
      ensures |watchers| == |old(watchers)| && nextId == old(nextId)
      ensures forall i :: 0 <= i < |watchers| ==>
        watchers[i] == old(watchers)[i] + if id in old(keyById) then [old(keyById)[id]] else []
    {
      if id !in keyById { return; }
      var key := keyById[id];
      keyById := keyById - {id};
      var sent: seq<seq<string>> := [];
      for i := 0 to |watchers|
        invariant |sent| == i && forall k :: 0 <= k < i ==> sent[k] == watchers[k] + [key]
      {
        sent := sent + [watchers[i] + [key]];
      }
      watchers := sent;
    }

    method WatchExpirations() returns (channel: nat)
      modifies this
      ensures View() == old(View()).(channels := old(View()).channels + [[]])
      ensures channel == |old(View()).channels|
    {
      watchers := watchers + [[]];
      return |watchers| - 1;
    }

    /** The end of a watch: its channel goes, and the others keep their order. */
    method StopWatching(channel: nat)
      requires channel < |View().channels|
      modifies this
      ensures View() == old(View()).(channels := old(View()).channels[..channel] + old(View()).channels[channel + 1..])
    {
      watchers := watchers[..channel] + watchers[channel + 1..];
    }

    method Receive(channel: nat) returns (key: string)
      requires channel < |View().channels| && View().channels[channel] != []
      modifies this
      ensures key == old(View()).channels[channel][0]
      ensures View() == Received(old(View()), channel)
    {
      key := watchers[channel][0];
      watchers := watchers[channel := watchers[channel][1..]];
    }
  }

  // Keys.

  const LEASE_KEY_PREFIX: string := "/orionqueue/workers/leases/"

  function LeaseKey(workerId: string): string { LEASE_KEY_PREFIX + workerId }

  function WorkerIdFromLeaseKey(key: string): Option<string>
  {
    if !(LEASE_KEY_PREFIX <= key) then None
    else if |key| == |LEASE_KEY_PREFIX| then None
    else Some(key[|LEASE_KEY_PREFIX|..])
  }

  /** A key gives back the worker it was made for, and no other key does. */
  lemma LeaseKeyRoundTrip(key: string, id: string)
    ensures WorkerIdFromLeaseKey(key) == Some(id) <==> id != "" && key == LeaseKey(id)
    ensures LeaseKey(id) == "/orionqueue/workers/leases/" + id
  {
    var n := |LEASE_KEY_PREFIX|;
    assert LeaseKey(id)[n..] == id;
    if LEASE_KEY_PREFIX <= key { assert key == key[..n] + key[n..]; }
  }

  // The worker records.

  datatype Registration = Registration(
    id: string, status: Status, leaseId: Option<nat>, gpus: seq<Gpu>, runningJobIds: seq<string>, lastHeartbeatAt: int)

  datatype Fleet = Fleet(workers: map<string, Registration>, manager: Manager)

  function Registered(f: Fleet, id: string, gpus: seq<Gpu>, now: int): Fleet
  {
    var m := Granted(f.manager, LeaseKey(id));
    Fleet(f.workers[id := Registration(id, Active, Some(m.nextId), gpus, [], now)], m)
  }

  /** The lease part of a heartbeat: a fresh lease unless the recorded one is
      there to be renewed. */
  function LeaseForBeat(f: Fleet, id: string): (Manager, Option<nat>)
    requires id in f.workers
  {
    var lease := f.workers[id].leaseId;
    if lease.Some? && lease.value in f.manager.keyById then (f.manager, None)
    else
      var m := Granted(f.manager, LeaseKey(id));
      (m, Some(m.nextId))
  }

  function BeatRecord(r: Registration, granted: Option<nat>, gpus: Option<seq<Gpu>>, running: Option<seq<string>>, now: int): Registration
  {
    r.(status := Active, lastHeartbeatAt := now,
       leaseId := if granted.Some? then granted else r.leaseId,
       gpus := if gpus.Some? then gpus.value else r.gpus,
       runningJobIds := if running.Some? then running.value else r.runningJobIds)
  }

  function Beaten(f: Fleet, id: string, gpus: Option<seq<Gpu>>, running: Option<seq<string>>, now: int): Fleet
  {
    if id !in f.workers then f
    else
      var (m, granted) := LeaseForBeat(f, id);
      Fleet(f.workers[id := BeatRecord(f.workers[id], granted, gpus, running, now)], m)
  }

  function LostRecord(r: Registration): Registration
  {
    if r.status.LostWorker? then r else r.(status := LostWorker, leaseId := None)
  }

  function MarkedLost(f: Fleet, id: string): Fleet
  {
    if id !in f.workers then f else f.(workers := f.workers[id := LostRecord(f.workers[id])])
  }

  /** One event taken from the watcher's channel and acted upon. */
  function Delivered(f: Fleet): Fleet
    requires f.manager.channels != [] && f.manager.channels[0] != []
  {
    var g := f.(manager := Received(f.manager, 0));
    match WorkerIdFromLeaseKey(f.manager.channels[0][0])
    case None => g
    case Some(id) => MarkedLost(g, id)
  }

  datatype Step =
    | Register(id: string, gpus: seq<Gpu>, now: int)
    | Heartbeat(id: string, reported: Option<seq<Gpu>>, running: Option<seq<string>>, now: int)
    | Expire(lease: nat)
    | Deliver

  predicate Enabled(f: Fleet, s: Step)
  {
    match s
    case Register(id, _, _) => id != "" && id !in f.workers
    case Heartbeat(_, _, _, _) => true
    case Expire(_) => true
    case Deliver => f.manager.channels != [] && f.manager.channels[0] != []
  }

  function Next(f: Fleet, s: Step): Fleet
    requires Enabled(f, s)
  {
    match s
    case Register(id, gpus, now) => Registered(f, id, gpus, now)
    case Heartbeat(id, gpus, running, now) => Beaten(f, id, gpus, running, now)
    case Expire(lease) => f.(manager := Dropped(f.manager, lease))
    case Deliver => Delivered(f)
  }

  // The invariant.

  predicate LiveLease(f: Fleet, r: Registration) { r.leaseId.Some? && r.leaseId.value in f.manager.keyById }

  predicate EventPending(f: Fleet, id: string) { f.manager.channels != [] && LeaseKey(id) in f.manager.channels[0] }

  /** A record and its lease agree, and a record shown as active is either
      backed by a live lease or about to be found out. */
  ghost predicate Watched(f: Fleet, id: string, r: Registration)
  {
    && r.id == id && id != ""
    && (r.status.LostWorker? <==> r.leaseId.None?)
    && (r.leaseId.Some? ==> r.leaseId.value <= f.manager.nextId)
    && (LiveLease(f, r) ==> f.manager.keyById[r.leaseId.value] == LeaseKey(id))
    && (r.status.Active? ==> LiveLease(f, r) || EventPending(f, id))
  }

  ghost predicate FleetInv(f: Fleet)
  {
    && f.manager.channels != []
    && (forall l :: l in f.manager.keyById ==> l <= f.manager.nextId)
    && (forall id :: id in f.workers ==> Watched(f, id, f.workers[id]))
  }

  lemma GrantKeepsWatched(f: Fleet, key: string, id: string, r: Registration)
    requires Watched(f, id, r) && forall l :: l in f.manager.keyById ==> l <= f.manager.nextId
    ensures Watched(f.(manager := Granted(f.manager, key)), id, r)
  {
  }

  lemma GrantsWatched(f: Fleet, id: string, r: Registration)
    requires r.id == id && id != "" && r.status.Active? && r.leaseId == Some(f.manager.nextId + 1)
    ensures Watched(f.(manager := Granted(f.manager, LeaseKey(id))), id, r)
  {
  }

  lemma StepKeeps(f: Fleet, s: Step)
    requires FleetInv(f) && Enabled(f, s)
    ensures FleetInv(Next(f, s))
  {
    match s {
      case Register(id, gpus, now) =>
        var g := Next(f, s);
        GrantsWatched(f, id, g.workers[id]);
        forall other | other in f.workers ensures Watched(g, other, f.workers[other]) {
          GrantKeepsWatched(f, LeaseKey(id), other, f.workers[other]);
        }
      case Heartbeat(id, gpus, running, now) => BeatKeeps(f, id, gpus, running, now);
      case Expire(lease) => ExpireKeeps(f, lease);
      case Deliver => DeliverKeeps(f);
    }
  }

  lemma BeatKeeps(f: Fleet, id: string, gpus: Option<seq<Gpu>>, running: Option<seq<string>>, now: int)
    requires FleetInv(f)
    ensures FleetInv(Beaten(f, id, gpus, running, now))
  {
    if id in f.workers {
      var g := Beaten(f, id, gpus, running, now);
      var (m, granted) := LeaseForBeat(f, id);
      if granted.Some? {
        GrantsWatched(f, id, g.workers[id]);
        forall other | other in f.workers ensures Watched(g, other, f.workers[other]) {
          GrantKeepsWatched(f, LeaseKey(id), other, f.workers[other]);
        }
      }
    }
  }

  /** When a lease ends, the worker recorded with it has an event coming. */
  lemma ExpireKeeps(f: Fleet, lease: nat)
    requires FleetInv(f)
    ensures FleetInv(f.(manager := Dropped(f.manager, lease)))
  {
    if lease in f.manager.keyById {
      var key := f.manager.keyById[lease];
      var g := f.(manager := Dropped(f.manager, lease));
      assert g.manager.channels[0] == f.manager.channels[0] + [key];
      forall id | id in f.workers ensures Watched(g, id, f.workers[id]) {
        assert Watched(f, id, f.workers[id]);
      }
    }
  }

  lemma DeliverKeeps(f: Fleet)
    requires FleetInv(f) && f.manager.channels[0] != []
    ensures FleetInv(Delivered(f))
  {
    var key, g := f.manager.channels[0][0], Delivered(f);
    var tail := f.manager.channels[0][1..];
    assert f.manager.channels[0] == [key] + tail && g.manager.channels[0] == tail;
    forall id | id in f.workers ensures Watched(g, id, g.workers[id]) {
      assert Watched(f, id, f.workers[id]);
      LeaseKeyRoundTrip(key, id);
    }
  }

  ghost predicate LegalRun(f: Fleet, steps: seq<Step>)
    decreases |steps|
  {
    steps == [] || (Enabled(f, steps[0]) && LegalRun(Next(f, steps[0]), steps[1..]))
  }

  ghost function Run(f: Fleet, steps: seq<Step>): Fleet
    requires LegalRun(f, steps)
    decreases |steps|
  {
    if steps == [] then f else Run(Next(f, steps[0]), steps[1..])
  }

  lemma {:induction false} RunKeeps(f: Fleet, steps: seq<Step>)
    requires FleetInv(f) && LegalRun(f, steps)
    ensures FleetInv(Run(f, steps))
    decreases |steps|
  {
    if steps != [] {
      StepKeeps(f, steps[0]);
      RunKeeps(Next(f, steps[0]), steps[1..]);
    }
  }

  /** Before any worker registers, with the watch established. */
  const WATCHING := Fleet(map[], Manager(0, map[], [[]]))

  /** In every run LOST means exactly having no lease, and no worker stays
      ACTIVE unnoticed: its lease is live, or its expiry is on its way. */
  lemma NoSilentDeath(steps: seq<Step>, id: string)
    requires LegalRun(WATCHING, steps) && id in Run(WATCHING, steps).workers
    ensures var f := Run(WATCHING, steps); var r := f.workers[id];
      && (r.status.LostWorker? <==> r.leaseId.None?)
      && (r.status.Active? ==> LiveLease(f, r) || EventPending(f, id))
  {
    RunKeeps(WATCHING, steps);
  }

  function Drained(f: Fleet): Fleet
    requires f.manager.channels != []
    decreases |f.manager.channels[0]|
  {
    if f.manager.channels[0] == [] then f else Drained(Delivered(f))
  }

  /** Once the watcher has caught up, the active workers are those whose lease
      is live. */
  lemma {:induction false} CaughtUp(f: Fleet, id: string)
    requires FleetInv(f)
    ensures FleetInv(Drained(f))
    ensures id in Drained(f).workers ==>
      (Drained(f).workers[id].status.Active? <==> LiveLease(Drained(f), Drained(f).workers[id]))
    decreases |f.manager.channels[0]|
  {
    if f.manager.channels[0] != [] {
      DeliverKeeps(f);
      CaughtUp(Delivered(f), id);
    } else if id in f.workers {
      assert Watched(f, id, f.workers[id]);
    }
  }

  /** A heartbeat puts a worker back, whatever happened to it: active, with a
      live lease of its own. */
  lemma HeartbeatHeals(f: Fleet, id: string, gpus: Option<seq<Gpu>>, running: Option<seq<string>>, now: int)
    requires FleetInv(f) && id in f.workers
    ensures var g := Beaten(f, id, gpus, running, now);
      g.workers[id].status.Active? && LiveLease(g, g.workers[id])
      && g.manager.keyById[g.workers[id].leaseId.value] == LeaseKey(id)
  {
    assert Watched(f, id, f.workers[id]);
  }

  /** A heartbeat is not one step: it renews, and writes its record later. If
      the lease expires and the watcher acts in between, the write leaves a
      worker active with no lease and no event to come. */
  lemma InterruptedHeartbeat(f: Fleet, id: string, now: int)
    requires FleetInv(f) && id in f.workers && f.manager.channels[0] == []
    requires f.workers[id].status.Active?
    ensures LeaseForBeat(f, id).1.None?
    ensures var g := Delivered(f.(manager := Dropped(f.manager, f.workers[id].leaseId.value)));
      var h := g.(workers := g.workers[id := BeatRecord(g.workers[id], None, None, None, now)]);
      h.workers[id].status.Active? && h.workers[id].leaseId.None? && !EventPending(h, id)
  {
    assert Watched(f, id, f.workers[id]);
    LeaseKeyRoundTrip(LeaseKey(id), id);
    var e := f.(manager := Dropped(f.manager, f.workers[id].leaseId.value));
    assert e.manager.channels[0] == [LeaseKey(id)];
  }

  /** Exactly when the delayed write of a heartbeat is harmless: if it brings no
      new lease, when the record is still active; if it brings one, when that
      lease is still live or its expiry still to be delivered. */
  lemma DelayedWriteExact(f: Fleet, id: string, granted: Option<nat>, now: int)
    requires FleetInv(f) && id in f.workers
    requires granted.Some? ==> granted.value <= f.manager.nextId
    requires granted.Some? && granted.value in f.manager.keyById ==> f.manager.keyById[granted.value] == LeaseKey(id)
    ensures var g := f.(workers := f.workers[id := BeatRecord(f.workers[id], granted, None, None, now)]);
      FleetInv(g) <==>
        if granted.None? then f.workers[id].status.Active?
        else granted.value in f.manager.keyById || EventPending(f, id)
  {
    var g := f.(workers := f.workers[id := BeatRecord(f.workers[id], granted, None, None, now)]);
    assert Watched(f, id, f.workers[id]);
    assert FleetInv(g) ==> Watched(g, id, g.workers[id]);
    forall other | other in f.workers && other != id ensures Watched(g, other, g.workers[other]) {
      assert Watched(f, other, f.workers[other]);
    }
  }

  /** Registration too grants its lease first and writes its record later. */
  function Recorded(f: Fleet, id: string, lease: nat, gpus: seq<Gpu>, now: int): Fleet
  {
    f.(workers := f.workers[id := Registration(id, Active, Some(lease), gpus, [], now)])
  }

  /** If the lease expires and the watcher acts in between, it finds no record,
      and the write leaves a worker active with no lease and no event to come. */
  lemma InterruptedRegistration(f: Fleet, id: string, gpus: seq<Gpu>, now: int)
    requires FleetInv(f) && id != "" && id !in f.workers && f.manager.channels[0] == []
    ensures var g := f.(manager := Granted(f.manager, LeaseKey(id)));
      var e := f.(manager := Dropped(g.manager, g.manager.nextId));
      && e.manager.channels != [] && e.manager.channels[0] != []
      && var h := Recorded(Delivered(e), id, g.manager.nextId, gpus, now);
      && h.workers[id].status.Active? && !LiveLease(h, h.workers[id]) && !EventPending(h, id)
  {
    LeaseKeyRoundTrip(LeaseKey(id), id);
    var g := f.(manager := Granted(f.manager, LeaseKey(id)));
    var e := f.(manager := Dropped(g.manager, g.manager.nextId));
    assert e.manager.channels[0] == [] + [LeaseKey(id)];
  }

  /** Exactly when the delayed write of a registration is harmless: when its
      lease is still live or its expiry still to be delivered. */
  lemma DelayedRegistrationExact(f: Fleet, id: string, lease: nat, gpus: seq<Gpu>, now: int)
    requires FleetInv(f) && id != "" && id !in f.workers && lease <= f.manager.nextId
    requires lease in f.manager.keyById ==> f.manager.keyById[lease] == LeaseKey(id)
    ensures FleetInv(Recorded(f, id, lease, gpus, now)) <==> lease in f.manager.keyById || EventPending(f, id)
  {
    var g := Recorded(f, id, lease, gpus, now);
    assert FleetInv(g) ==> Watched(g, id, g.workers[id]);
    forall other | other in f.workers ensures Watched(g, other, g.workers[other]) {
      assert Watched(f, other, f.workers[other]);
    }
  }

  /** The workers that a sequence of expired keys is about. */
  ghost function Announced(keys: seq<string>, known: set<string>): seq<string>
  {
    if keys == [] then [] else AnnouncedBy(keys[0], known) + Announced(keys[1..], known)
  }

  ghost function AnnouncedBy(key: string, known: set<string>): seq<string>
  {
    match WorkerIdFromLeaseKey(key)
    case None => []
    case Some(id) => if id in known then [id] else []
  }

  /** A worker is announced exactly if it is known and its key is among them. */
  lemma {:induction false} AnnouncedAre(keys: seq<string>, known: set<string>, id: string)
    ensures id in Announced(keys, known) <==> id != "" && id in known && LeaseKey(id) in keys
  {
    if keys != [] {
      assert keys == [keys[0]] + keys[1..];
      AnnouncedAre(keys[1..], known, id);
      LeaseKeyRoundTrip(keys[0], id);
    }
  }

  lemma AnnouncedNext(lost: seq<string>, keys: seq<string>, known: set<string>)
    requires keys != []
    ensures lost + Announced(keys, known) == (lost + AnnouncedBy(keys[0], known)) + Announced(keys[1..], known)
  {
  }

  lemma CaughtUpAll(f: Fleet)
    requires FleetInv(f) && f.manager.channels[0] == []
    ensures forall id :: id in f.workers ==> (f.workers[id].status.Active? <==> LiveLease(f, f.workers[id]))
  {
    forall id | id in f.workers ensures f.workers[id].status.Active? <==> LiveLease(f, f.workers[id]) { CaughtUp(f, id); }
  }

  // The service that keeps the records.

  class WorkerService {
    var workersById: map<string, Registration>
    const leases: FakeManager

    ghost function View(): Fleet
      reads this, leases
    {
      Fleet(workersById, leases.View())
    }

    /** The watch is established before any worker can register. */
    constructor ()
      ensures fresh(leases) && View() == WATCHING && FleetInv(View())
    {
      var m := new FakeManager();
      var channel := m.WatchExpirations();
      leases := m;
      workersById := map[];
    }

    method Register(id: string, gpus: seq<Gpu>, now: int) returns (r: Registration)
      requires FleetInv(View()) && id != "" && id !in View().workers
      modifies this, leases
      ensures View() == Next(old(View()), Step.Register(id, gpus, now)) && FleetInv(View())
      ensures r == View().workers[id] && r == Registration(id, Active, Some(leases.nextId), gpus, [], now)
      ensures forall other :: other in old(View()).workers ==> View().workers[other] == old(View()).workers[other]
    {
      StepKeeps(View(), Step.Register(id, gpus, now));
      var lease := leases.Grant(LeaseKey(id));
      r := Registration(id, Active, Some(lease), gpus, [], now);
      workersById := workersById[id := r];
    }

    method Heartbeat(id: string, gpus: Option<seq<Gpu>>, running: Option<seq<string>>, now: int)
      returns (r: Option<Registration>)
      requires FleetInv(View())
      modifies this, leases
      ensures View() == Next(old(View()), Step.Heartbeat(id, gpus, running, now)) && FleetInv(View())
      ensures r == if id in old(View()).workers then Some(View().workers[id]) else None
      ensures r.Some? ==>
        && r.value.status.Active? && r.value.lastHeartbeatAt == now && r.value.id == old(View()).workers[id].id
        && r.value.gpus == (if gpus.Some? then gpus.value else old(View()).workers[id].gpus)
        && r.value.runningJobIds == (if running.Some? then running.value else old(View()).workers[id].runningJobIds)
        && (LiveLease(old(View()), old(View()).workers[id]) ==> r.value.leaseId == old(View()).workers[id].leaseId)
      ensures forall other :: other in old(View()).workers && other != id ==> View().workers[other] == old(View()).workers[other]
    {
      StepKeeps(View(), Step.Heartbeat(id, gpus, running, now));
      if id !in workersById { return None; }
      var current := workersById[id];
      var granted: Option<nat> := None;
      if current.leaseId.None? {
        var lease := leases.Grant(LeaseKey(id));
        granted := Some(lease);
      } else {
        var found := leases.Renew(current.leaseId.value);
        if !found {
          var lease := leases.Grant(LeaseKey(id));
          granted := Some(lease);
        }
      }
      var updated := BeatRecord(workersById[id], granted, gpus, running, now);
      workersById := workersById[id := updated];
      return Some(updated);
    }

    method MarkLost(id: string) returns (found: bool)
      modifies this
      ensures View() == MarkedLost(old(View()), id)
      ensures found <==> id in old(View()).workers
      ensures found ==> var before, after := old(View()).workers[id], View().workers[id];
        && (before.status.Active? ==> after == before.(status := LostWorker, leaseId := None))
        && (before.status.LostWorker? ==> after == before)
      ensures forall other :: other in old(View()).workers && other != id ==> View().workers[other] == old(View()).workers[other]
      ensures View().manager == old(View()).manager
    {
      if id !in workersById { return false; }
      workersById := workersById[id := LostRecord(workersById[id])];
      return true;
    }

    /** One expiration event. */
    method HandleExpiration() returns (lost: seq<string>)
      requires FleetInv(View()) && View().manager.channels[0] != []
      modifies this, leases
      ensures View() == Next(old(View()), Deliver) && FleetInv(View()) && View().workers.Keys == old(View()).workers.Keys
      ensures lost == AnnouncedBy(old(View()).manager.channels[0][0], View().workers.Keys)
      ensures View().manager.channels[0] == old(View()).manager.channels[0][1..]
    {
      DeliverKeeps(View());
      lost := [];
      var key := leases.Receive(0);
      match WorkerIdFromLeaseKey(key) {
        case None =>
        case Some(id) =>
          var found := MarkLost(id);
          if found { lost := [id]; }
      }
    }

    /** The watch loop, until the channel is empty: every worker whose expiry
        was on its way is marked and announced, in the order of the events. */
    method WatchExpirations() returns (lost: seq<string>)
      requires FleetInv(View())
      modifies this, leases
      ensures View() == Drained(old(View())) && FleetInv(View())
      ensures lost == Announced(old(View()).manager.channels[0], old(View()).workers.Keys)
      ensures forall id :: id in View().workers ==>
        (View().workers[id].status.Active? <==> LiveLease(View(), View().workers[id]))
    {
      lost := [];
      ghost var known, all := View().workers.Keys, Announced(View().manager.channels[0], View().workers.Keys);
      while |leases.watchers[0]| > 0
        invariant FleetInv(View()) && View().workers.Keys == known
        invariant lost + Announced(View().manager.channels[0], known) == all
        invariant Drained(View()) == Drained(old(View()))
        decreases |leases.watchers[0]|
      {
        ghost var keys := View().manager.channels[0];
        AnnouncedNext(lost, keys, known);
        var more := HandleExpiration();
        lost := lost + more;
      }
      CaughtUpAll(View());
    }
  }
}
