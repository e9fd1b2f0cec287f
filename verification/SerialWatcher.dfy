/** The registry of connected strips as the watcher meets it: other threads connect and let go
    between any two of its calls, and what they record was stamped when they did the work, not when
    the record lands. */
module OutputRegistry {
  import opened WatchSteps
  import opened Wrappers

  datatype Entry = Entry(connected: bool, updatedAt: nat)

  /** The serial part of `LocalOutputRegistry`, and the clock. */
  datatype Registry = Registry(serial: map<Port, Entry>, now: nat)

  /** One change to the registry, recorded `wait` ms after the one before. Connects and failures carry
      the stamp of the blocking worker that made them, a restore the stamp of the entry it puts back;
      nothing ties these stamps to the moment of the record. `Lost` is the watcher's own. */
  datatype Update =
    | Connected(port: Port, stamp: nat, wait: nat)
    | Failed(port: Port, stamp: nat, wait: nat)
    | Disconnected(port: Port, wait: nat)
    | Restored(port: Port, stamp: nat, wait: nat)
    | Released(wait: nat)
    | Lost(port: Port)

  predicate ConnectedIn(r: Registry, p: Port) {
    p in r.serial && r.serial[p].connected
  }

  /** `connected_serial_ports`. */
  function ConnectedPorts(r: Registry): set<Port> {
    set p | p in r.serial && r.serial[p].connected
  }

  /** `connected_since`. */
  predicate Since(r: Registry, p: Port, listedAt: nat) {
    ConnectedIn(r, p) && r.serial[p].updatedAt >= listedAt
  }

  /** The guard of `serial_lost`: its complement among the connected ports. */
  predicate Stale(r: Registry, p: Port, listedAt: nat) {
    ConnectedIn(r, p) && r.serial[p].updatedAt < listedAt
  }

  function Set(r: Registry, p: Port, connected: bool, at: nat): Registry {
    r.(serial := r.serial[p := Entry(connected, at)])
  }

  /** A connect always takes. A failure leaves a connected port alone, a restore does too, and a
      disconnect needs one. */
  function Record(r: Registry, u: Update): Registry {
    match u
    case Connected(p, stamp, wait) => Set(r, p, true, stamp).(now := r.now + wait)
    case Failed(p, stamp, wait) => (if ConnectedIn(r, p) then r else Set(r, p, false, stamp)).(now := r.now + wait)
    case Disconnected(p, wait) =>
      (if ConnectedIn(r, p) then Set(r, p, false, r.now + wait) else r).(now := r.now + wait)
    case Restored(p, stamp, wait) => (if ConnectedIn(r, p) then r else Set(r, p, true, stamp)).(now := r.now + wait)
    case Released(wait) =>
      Registry(
        map p | p in r.serial :: if r.serial[p].connected then Entry(false, r.now + wait) else r.serial[p],
        r.now + wait)
    case Lost(p) => Set(r, p, false, r.now)
  }

  function Land(r: Registry, log: seq<Update>): Registry {
    if log == [] then r else Record(Land(r, log[..|log| - 1]), log[|log| - 1])
  }

  lemma {:induction false} LandInParts(r: Registry, a: seq<Update>, b: seq<Update>)
    ensures Land(r, a + b) == Land(Land(r, a), b)
  {
    hide Record;
    if b == [] {
      assert a + b == a;
    } else {
      LandInParts(r, a, b[..|b| - 1]);
      assert (a + b)[..|a + b| - 1] == a + b[..|b| - 1];
    }
  }

  // -------------------------------------------------------------------------
  // How a port comes to be connected on an old stamp
  // -------------------------------------------------------------------------

  /** A record of `p` as connected, stamped before the listing. */
  predicate Backdates(u: Update, p: Port, listedAt: nat) {
    (u.Connected? || u.Restored?) && u.port == p && u.stamp < listedAt
  }

  predicate Takes(r: Registry, u: Update) {
    u.Connected? || (u.Restored? && !ConnectedIn(r, u.port))
  }

  /** What leaves a connected `p` as it is. */
  predicate Spares(u: Update, p: Port) {
    match u
    case Connected(q, _, _) => q != p
    case Disconnected(q, _) => q != p
    case Lost(q) => q != p
    case Released(_) => false
    case Failed(_, _, _) => true
    case Restored(_, _, _) => true
  }

  /** Somewhere in `log` a backdated record of `p` takes, and nothing after it replaces it. */
  ghost predicate BackdatedIn(r: Registry, log: seq<Update>, p: Port, listedAt: nat) {
    exists k: nat :: k < |log| && StandsFrom(r, log, k, p, listedAt)
  }

  ghost predicate StandsFrom(r: Registry, log: seq<Update>, k: nat, p: Port, listedAt: nat)
    requires k < |log|
  {
    && Backdates(log[k], p, listedAt) && Takes(Land(r, log[..k]), log[k])
    && forall j :: k < j < |log| ==> Spares(log[j], p)
  }

  lemma StaleAfterOne(r: Registry, u: Update, p: Port, listedAt: nat)
    ensures Stale(Record(r, u), p, listedAt) <==>
      (Backdates(u, p, listedAt) && Takes(r, u)) || (Stale(r, p, listedAt) && Spares(u, p))
  {
  }

  lemma BackdatedInOneMore(r: Registry, log: seq<Update>, p: Port, listedAt: nat)
    requires log != []
    ensures
      var init, u := log[..|log| - 1], log[|log| - 1];
      BackdatedIn(r, log, p, listedAt) <==>
        (Backdates(u, p, listedAt) && Takes(Land(r, init), u)) || (BackdatedIn(r, init, p, listedAt) && Spares(u, p))
  {
    hide Backdates, Takes, Spares, Land;
    var init, last := log[..|log| - 1], |log| - 1;
    forall k: nat | k < last
      ensures StandsFrom(r, log, k, p, listedAt) <==> StandsFrom(r, init, k, p, listedAt) && Spares(log[last], p)
    {
      assert init[..k] == log[..k] && init[k] == log[k];
      assert forall j :: k < j < last ==> init[j] == log[j];
    }
    assert StandsFrom(r, log, last, p, listedAt) <==>
      (Backdates(log[last], p, listedAt) && Takes(Land(r, init), log[last]));
  }

  /** A port that was not connected on an old stamp becomes so exactly when a backdated record of it
      takes and stands. */
  lemma {:induction false} StaleExactlyWhenBackdated(r: Registry, log: seq<Update>, p: Port, listedAt: nat)
    requires !Stale(r, p, listedAt)
    ensures Stale(Land(r, log), p, listedAt) <==> BackdatedIn(r, log, p, listedAt)
  {
    if log != [] {
      var init, u := log[..|log| - 1], log[|log| - 1];
      StaleExactlyWhenBackdated(r, init, p, listedAt);
      StaleAfterOne(Land(r, init), u, p, listedAt);
      BackdatedInOneMore(r, log, p, listedAt);
    }
  }

  class LocalOutputRegistry {
    var registry: Registry
    /** What other threads record before each of the calls to come. */
    var others: seq<seq<Update>>
    ghost const start: Registry
    ghost var log: seq<Update>

    /** The registry is what its log makes of where it started. */
    ghost predicate Valid()
      reads this
    {
      registry == Land(start, log)
    }

    constructor (registry: Registry, others: seq<seq<Update>>)
      ensures Valid() && start == this.registry == registry && this.others == others && log == []
    {
      this.registry, this.others, start, log := registry, others, registry, [];
    }

    method Apply(updates: seq<Update>)
      requires Valid()
      modifies `registry, `log
      ensures Valid() && log == old(log) + updates
    {
      ghost var before := registry;
      for k := 0 to |updates|
        invariant log == old(log) && registry == Land(before, updates[..k])
      {
        assert updates[..k + 1][..k] == updates[..k];
        registry := Record(registry, updates[k]);
      }
      assert updates[..|updates|] == updates;
      LandInParts(start, log, updates);
      log := log + updates;
    }

    method OtherThreadsRun()
      requires Valid()
      modifies this
      ensures Valid() && old(log) <= log
    {
      if others != [] {
        Apply(others[0]);
        others := others[1..];
      }
    }

    method ConnectedSerialPorts() returns (ports: set<Port>)
      requires Valid()
      modifies this
      ensures Valid() && old(log) <= log
      ensures ports == ConnectedPorts(registry)
    {
      OtherThreadsRun();
      ports := ConnectedPorts(registry);
    }

    method ConnectedSince(port: Port, listedAt: nat) returns (since: bool)
      requires Valid()
      modifies this
      ensures Valid() && old(log) <= log
      ensures since == Since(registry, port, listedAt)
    {
      OtherThreadsRun();
      since :=
        port in registry.serial && registry.serial[port].connected && registry.serial[port].updatedAt >= listedAt;
    }

    /** `found` is how much of the log the call found under the lock. */
    method SerialLost(port: Port, listedAt: nat) returns (snapshot: Option<Registry>, ghost found: nat)
      requires Valid()
      modifies this
      ensures Valid() && old(log) <= log && |old(log)| <= found <= |log|
      ensures snapshot.Some? <==> Stale(Land(start, log[..found]), port, listedAt)
      ensures log[found..] == if snapshot.Some? then [Lost(port)] else []
      ensures snapshot.Some? ==> snapshot.value == registry
    {
      OtherThreadsRun();
      found := |log|;
      assert log[..found] == log;
      snapshot := None;
      if port in registry.serial {
        var entry := registry.serial[port];
        if entry.connected && entry.updatedAt < listedAt {
          ghost var before := log;
          Apply([Lost(port)]);
          assert log[..found] == before;
          snapshot := Some(registry);
        }
      }
    }
  }
}

/** `SerialWatch`: the watcher's memory, and a poll over a listing and the registry. */
module SerialWatcher {
  import opened OutputRegistry
  import opened WatchSteps
  import opened Wrappers

  datatype Descriptor = Descriptor(name: Port, isSupported: bool)

  datatype PortsChanged = PortsChanged(ports: seq<Descriptor>, appeared: set<Port>, lost: set<Port>)

  datatype Outcome = Outcome(event: Option<PortsChanged>, forget: set<Port>, registry: Option<Registry>)

  const QUIET := Outcome(None, {}, None)

  function Supported(ports: seq<Descriptor>): set<Port> {
    set d | d in ports && d.isSupported :: d.name
  }

  /** Connected ports already past the mark: a connect that finished after an earlier listing skipped
      their clear once. */
  function Retried(misses: map<Port, nat>, connected: set<Port>, lost: set<Port>): set<Port> {
    set p | p in connected && p !in lost && p in misses && misses[p] >= MISSES_BEFORE_LOST
  }

  // -------------------------------------------------------------------------
  // What a poll does to the registry
  // -------------------------------------------------------------------------

  /** The registry after the first `i` records. */
  function After(start: Registry, log: seq<Update>, i: nat): Registry
    requires i <= |log|
  {
    Land(start, log[..i])
  }

  /** Each of `lost` was asked about once, after record `told`, and is forgotten exactly if no connect
      had landed on it since the listing. */
  ghost predicate Asked(start: Registry, log: seq<Update>, lo: nat, told: map<Port, nat>, lost: set<Port>,
                        forget: set<Port>, listedAt: nat) {
    && told.Keys == lost && forget <= lost
    && forall p :: p in lost ==>
         lo <= told[p] <= |log| && (p in forget <==> !Since(After(start, log, told[p]), p, listedAt))
  }

  /** Each of `ports` was looked at once more, after record `looked`, and cleared exactly if its
      connection predated the listing. */
  ghost predicate Looked(start: Registry, log: seq<Update>, lo: nat, looked: map<Port, nat>, ports: set<Port>,
                         cleared: set<Port>, listedAt: nat) {
    && looked.Keys == ports && cleared <= ports
    && forall p :: p in ports ==>
         && lo <= looked[p] <= |log|
         && (p in cleared <==> Stale(After(start, log, looked[p]), p, listedAt))
         && (p in cleared ==> looked[p] < |log| && log[looked[p]] == Lost(p))
  }

  /** The registry's side of one poll: what its log holds, and where in it the poll asked what is
      connected, asked about each lost port, and last looked at each port it might clear. */
  datatype Trace = Trace(start: Registry, log: seq<Update>, asked: nat, told: map<Port, nat>,
                         looked: map<Port, nat>, forget: set<Port>, cleared: set<Port>)
  {
    /** Lost ports are asked about, then looked at; retried ones only looked at, and forgotten with
        their clear. */
    ghost predicate LetsGo(lost: set<Port>, retried: set<Port>, listedAt: nat) {
      && asked <= |log| && lost !! retried
      && Asked(start, log, asked, told, lost, forget * lost, listedAt)
      && Looked(start, log, asked, looked, lost + retried, cleared, listedAt)
      && forget <= lost + retried
      && (forall p :: p in lost ==> told[p] <= looked[p])
      && (forall p :: p in retried ==> (p in forget <==> p in cleared))
    }

    function Now(): Registry {
      Land(start, log)
    }

    /** How much of the log the poll had seen when it last looked at `p`, its own clear included. */
    function LastLook(p: Port): nat {
      if p !in looked then asked else if p in cleared then looked[p] + 1 else looked[p]
    }
  }

  /** The snapshot handed on was taken after every clear. */
  ghost predicate ShowsClears(start: Registry, log: seq<Update>, looked: map<Port, nat>, cleared: set<Port>,
                              snapshot: Option<Registry>) {
    && (snapshot.Some? <==> cleared != {})
    && (snapshot.Some? ==> exists i: nat :: TakenAfter(start, log, looked, cleared, snapshot.value, i))
  }

  ghost predicate TakenAfter(start: Registry, log: seq<Update>, looked: map<Port, nat>, cleared: set<Port>,
                             snapshot: Registry, i: nat) {
    && i <= |log| && snapshot == After(start, log, i)
    && forall p :: p in cleared ==> p in looked && looked[p] < i
  }

  lemma ShowsGrows(start: Registry, log: seq<Update>, longer: seq<Update>, looked: map<Port, nat>,
                   cleared: set<Port>, snapshot: Option<Registry>, port: Port, found: nat)
    requires log <= longer && port !in cleared && ShowsClears(start, log, looked, cleared, snapshot)
    ensures ShowsClears(start, longer, looked[port := found], cleared, snapshot)
  {
    hide After;
    if snapshot.Some? {
      var i: nat :| TakenAfter(start, log, looked, cleared, snapshot.value, i);
      AfterGrows(start, log, longer, i);
      assert TakenAfter(start, longer, looked[port := found], cleared, snapshot.value, i);
    }
  }

  lemma ShowsNow(start: Registry, log: seq<Update>, looked: map<Port, nat>, cleared: set<Port>)
    requires cleared != {} && forall p :: p in cleared ==> p in looked && looked[p] < |log|
    ensures ShowsClears(start, log, looked, cleared, Some(Land(start, log)))
  {
    assert log[..|log|] == log;
    assert TakenAfter(start, log, looked, cleared, Land(start, log), |log|);
  }

  lemma ShowsOneMore(start: Registry, log: seq<Update>, lo: nat, looked: map<Port, nat>, ports: set<Port>,
                     cleared: set<Port>, listedAt: nat)
    requires cleared != {} && Looked(start, log, lo, looked, ports, cleared, listedAt)
    ensures ShowsClears(start, log, looked, cleared, Some(Land(start, log)))
  {
    ShowsNow(start, log, looked, cleared);
  }

  lemma ShowsNone(start: Registry, log: seq<Update>)
    ensures ShowsClears(start, log, map[], {}, None)
  {
  }

  lemma ShowsBoth(start: Registry, early: seq<Update>, log: seq<Update>, a: map<Port, nat>, b: map<Port, nat>,
                  c: set<Port>, d: set<Port>, first: Option<Registry>, second: Option<Registry>)
    requires early <= log && a.Keys !! b.Keys && c <= a.Keys && d <= b.Keys
    requires ShowsClears(start, early, a, c, first) && ShowsClears(start, log, b, d, second)
    requires forall p :: p in a ==> a[p] <= |early|
    requires forall p :: p in b ==> b[p] >= |early|
    ensures ShowsClears(start, log, a + b, c + d, if second.Some? then second else first)
  {
    hide After;
    if second.Some? {
      var i: nat :| TakenAfter(start, log, b, d, second.value, i);
      assert TakenAfter(start, log, a + b, c + d, second.value, i);
    } else if first.Some? {
      var i: nat :| TakenAfter(start, early, a, c, first.value, i);
      AfterGrows(start, early, log, i);
      assert TakenAfter(start, log, a + b, c + d, first.value, i);
    }
  }

  lemma AfterGrows(start: Registry, log: seq<Update>, longer: seq<Update>, i: nat)
    requires log <= longer && i <= |log|
    ensures After(start, longer, i) == After(start, log, i)
  {
    assert longer[..i] == log[..i];
  }

  lemma AskedGrows(start: Registry, log: seq<Update>, longer: seq<Update>, lo: nat, told: map<Port, nat>,
                   lost: set<Port>, forget: set<Port>, listedAt: nat)
    requires log <= longer && Asked(start, log, lo, told, lost, forget, listedAt)
    ensures Asked(start, longer, lo, told, lost, forget, listedAt)
    ensures forall p :: p in lost ==> told[p] <= |log|
  {
    hide Since, After;
    forall p | p in lost
      ensures After(start, longer, told[p]) == After(start, log, told[p])
    {
      AfterGrows(start, log, longer, told[p]);
    }
  }

  lemma LookedGrows(start: Registry, log: seq<Update>, longer: seq<Update>, lo: nat, looked: map<Port, nat>,
                    ports: set<Port>, cleared: set<Port>, listedAt: nat)
    requires log <= longer && Looked(start, log, lo, looked, ports, cleared, listedAt)
    ensures Looked(start, longer, lo, looked, ports, cleared, listedAt)
  {
    hide Stale, After;
    forall p | p in ports
      ensures After(start, longer, looked[p]) == After(start, log, looked[p])
    {
      AfterGrows(start, log, longer, looked[p]);
    }
  }

  lemma AskedOneMore(start: Registry, log: seq<Update>, lo: nat, told: map<Port, nat>, lost: set<Port>,
                     forget: set<Port>, listedAt: nat, p: Port)
    requires lo <= |log| && p !in lost && Asked(start, log, lo, told, lost, forget, listedAt)
    ensures
      var forget' := if Since(Land(start, log), p, listedAt) then forget else forget + {p};
      Asked(start, log, lo, told[p := |log|], lost + {p}, forget', listedAt)
  {
    hide Since;
    assert log[..|log|] == log;
  }

  lemma LookedOneMore(start: Registry, log: seq<Update>, lo: nat, looked: map<Port, nat>, ports: set<Port>,
                      cleared: set<Port>, listedAt: nat, p: Port, found: nat)
    requires lo <= found <= |log| && p !in ports && Looked(start, log, lo, looked, ports, cleared, listedAt)
    requires Stale(After(start, log, found), p, listedAt) ==> log[found..] == [Lost(p)]
    ensures
      var cleared' := if Stale(After(start, log, found), p, listedAt) then cleared + {p} else cleared;
      Looked(start, log, lo, looked[p := found], ports + {p}, cleared', listedAt)
  {
    hide Stale, After;
    if Stale(After(start, log, found), p, listedAt) {
      assert log[found] == log[found..][0];
    }
  }

  lemma LookedWithin(start: Registry, log: seq<Update>, lo: nat, looked: map<Port, nat>, ports: set<Port>,
                     cleared: set<Port>, listedAt: nat)
    requires Looked(start, log, lo, looked, ports, cleared, listedAt)
    ensures looked.Keys == ports && cleared <= ports && forall p :: p in looked ==> lo <= looked[p] <= |log|
  {
  }

  lemma LookedBoth(start: Registry, log: seq<Update>, lo: nat, a: map<Port, nat>, b: map<Port, nat>,
                   lost: set<Port>, retried: set<Port>, c: set<Port>, d: set<Port>, listedAt: nat)
    requires lost !! retried
    requires Looked(start, log, lo, a, lost, c, listedAt) && Looked(start, log, lo, b, retried, d, listedAt)
    ensures Looked(start, log, lo, a + b, lost + retried, c + d, listedAt)
  {
    hide Stale, After;
  }

  lemma LaterStart(start: Registry, log: seq<Update>, lo: nat, hi: nat, looked: map<Port, nat>, ports: set<Port>,
                   cleared: set<Port>, listedAt: nat)
    requires lo <= hi && Looked(start, log, hi, looked, ports, cleared, listedAt)
    ensures Looked(start, log, lo, looked, ports, cleared, listedAt)
  {
  }

  lemma AskedNone(start: Registry, log: seq<Update>, lo: nat, listedAt: nat)
    ensures Asked(start, log, lo, map[], {}, {}, listedAt)
  {
  }

  lemma LookedNone(start: Registry, log: seq<Update>, lo: nat, listedAt: nat)
    ensures Looked(start, log, lo, map[], {}, {}, listedAt)
  {
  }

  lemma NothingForgotten(t: Trace, lost: set<Port>, retried: set<Port>, listedAt: nat)
    requires t.LetsGo(lost, retried, listedAt) && lost == {} && t.cleared == {}
    ensures t.forget == {}
  {
  }

  /** The three stages of letting go, put together. */
  lemma LetsGoInParts(t: Trace, log1: seq<Update>, log2: seq<Update>, looked1: map<Port, nat>, looked2: map<Port, nat>,
                      lost: set<Port>, retried: set<Port>, forgotten: set<Port>, cleared1: set<Port>,
                      cleared2: set<Port>, listedAt: nat)
    requires lost !! retried && t.asked <= |log1| && log1 <= log2 <= t.log
    requires Asked(t.start, log1, t.asked, t.told, lost, forgotten, listedAt)
    requires Looked(t.start, log2, |log1|, looked1, lost, cleared1, listedAt)
    requires Looked(t.start, t.log, |log2|, looked2, retried, cleared2, listedAt)
    requires t.looked == looked1 + looked2 && t.cleared == cleared1 + cleared2 && t.forget == forgotten + cleared2
    ensures t.LetsGo(lost, retried, listedAt)
  {
    hide Stale, Since, After;
    AskedGrows(t.start, log1, t.log, t.asked, t.told, lost, forgotten, listedAt);
    LookedGrows(t.start, log2, t.log, |log1|, looked1, lost, cleared1, listedAt);
    LaterStart(t.start, t.log, t.asked, |log1|, looked1, lost, cleared1, listedAt);
    LaterStart(t.start, t.log, t.asked, |log2|, looked2, retried, cleared2, listedAt);
    LookedBoth(t.start, t.log, t.asked, looked1, looked2, lost, retried, cleared1, cleared2, listedAt);
    assert t.forget * lost == forgotten;
  }

  // -------------------------------------------------------------------------
  // What holds after a poll, and exactly when it does not
  // -------------------------------------------------------------------------

  /** Every connected port is listed, missed only once, or connected since the listing. */
  ghost predicate Accounted(now: set<Port>, w: Watch, listedAt: nat, r: Registry) {
    forall p :: ConnectedIn(r, p) ==> p in now || Misses(w, p) == 1 || Since(r, p, listedAt)
  }

  lemma BetweenRecords(t: Trace, i: nat, j: nat, p: Port, listedAt: nat)
    requires i <= j <= |t.log| && !Stale(After(t.start, t.log, i), p, listedAt)
    ensures Stale(After(t.start, t.log, j), p, listedAt) <==>
      BackdatedIn(After(t.start, t.log, i), t.log[i..j], p, listedAt)
  {
    hide Stale, Land, BackdatedIn;
    assert t.log[..i] + t.log[i..j] == t.log[..j];
    LandInParts(t.start, t.log[..i], t.log[i..j]);
    StaleExactlyWhenBackdated(After(t.start, t.log, i), t.log[i..j], p, listedAt);
  }

  /** A lost port a connect had landed on is not forgotten, and yet cleared, exactly when a backdated
      connect overwrites that one before the poll looks again. */
  lemma ClearedUnforgottenExactly(t: Trace, lost: set<Port>, retried: set<Port>, listedAt: nat, p: Port)
    requires t.LetsGo(lost, retried, listedAt) && p in lost && p !in t.forget
    ensures p in t.cleared <==>
      BackdatedIn(After(t.start, t.log, t.told[p]), t.log[t.told[p]..t.looked[p]], p, listedAt)
  {
    BetweenRecords(t, t.told[p], t.looked[p], p, listedAt);
    hide BackdatedIn;
  }

  /** So whatever is cleared is forgotten too, exactly if that happens to no lost port. */
  lemma ClearedIsForgottenExactly(t: Trace, lost: set<Port>, retried: set<Port>, listedAt: nat)
    requires t.LetsGo(lost, retried, listedAt)
    ensures t.cleared <= t.forget <==>
      forall p :: p in lost && p !in t.forget ==>
        !BackdatedIn(After(t.start, t.log, t.told[p]), t.log[t.told[p]..t.looked[p]], p, listedAt)
  {
    hide BackdatedIn, Stale, After, Since;
    forall p | p in lost && p !in t.forget
      ensures p in t.cleared <==>
        BackdatedIn(After(t.start, t.log, t.told[p]), t.log[t.told[p]..t.looked[p]], p, listedAt)
    {
      ClearedUnforgottenExactly(t, lost, retried, listedAt, p);
    }
  }

  /** When the poll last looked at a port that is neither listed nor missed just once, the port was
      not connected on an old stamp. */
  lemma NotStaleAtLastLook(t: Trace, w: Watch, now: set<Port>, connected: set<Port>, listedAt: nat, p: Port)
    requires t.asked <= |t.log| && connected == ConnectedPorts(After(t.start, t.log, t.asked))
    requires var step := PollStep(w, now, connected);
             t.LetsGo(step.lost, Retried(step.watch.misses, connected, step.lost), listedAt)
    requires p !in now && Misses(PollStep(w, now, connected).watch, p) != 1
    ensures t.asked <= t.LastLook(p) <= |t.log|
    ensures !Stale(After(t.start, t.log, t.LastLook(p)), p, listedAt)
  {
    var step := PollStep(w, now, connected);
    if p in t.looked {
      if p in t.cleared {
        LostIsNotStale(t, t.looked[p], p, listedAt);
      }
    } else {
      UnwatchedUnlessLooked(w, now, connected, p);
    }
  }

  lemma LostIsNotStale(t: Trace, i: nat, p: Port, listedAt: nat)
    requires i < |t.log| && t.log[i] == Lost(p)
    ensures !Stale(After(t.start, t.log, i + 1), p, listedAt)
  {
    assert t.log[..i + 1][..i] == t.log[..i];
  }

  lemma UnwatchedUnlessLooked(w: Watch, now: set<Port>, connected: set<Port>, p: Port)
    requires p !in now && Misses(PollStep(w, now, connected).watch, p) != 1
    requires var step := PollStep(w, now, connected);
             p !in step.lost && p !in Retried(step.watch.misses, connected, step.lost)
    ensures p !in connected
  {
  }

  /** Every port still connected is accounted for, exactly if no backdated record of one that is
      neither listed nor missed just once landed after the poll last looked at it, and stands. */
  lemma AccountedExactly(t: Trace, w: Watch, now: set<Port>, connected: set<Port>, listedAt: nat)
    requires t.asked <= |t.log| && connected == ConnectedPorts(After(t.start, t.log, t.asked))
    requires var step := PollStep(w, now, connected);
             t.LetsGo(step.lost, Retried(step.watch.misses, connected, step.lost), listedAt)
    ensures Accounted(now, PollStep(w, now, connected).watch, listedAt, t.Now()) <==>
      forall p :: p !in now && Misses(PollStep(w, now, connected).watch, p) != 1 ==> !LateConnect(t, p, listedAt)
  {
    hide BackdatedIn, After, PollStep, Misses, Trace.LetsGo, Trace.LastLook;
    var after := PollStep(w, now, connected).watch;
    forall p | p !in now && Misses(after, p) != 1
      ensures LateConnect(t, p, listedAt) <==> Stale(t.Now(), p, listedAt)
    {
      NotStaleAtLastLook(t, w, now, connected, listedAt, p);
      BetweenRecords(t, t.LastLook(p), |t.log|, p, listedAt);
      assert After(t.start, t.log, |t.log|) == t.Now() by { WholeLog(t); }
    }
  }

  lemma WholeLog(t: Trace)
    ensures After(t.start, t.log, |t.log|) == t.Now()
  {
    assert t.log[..|t.log|] == t.log;
  }

  ghost predicate LateConnect(t: Trace, p: Port, listedAt: nat) {
    && t.LastLook(p) <= |t.log|
    && BackdatedIn(After(t.start, t.log, t.LastLook(p)), t.log[t.LastLook(p)..|t.log|], p, listedAt)
  }

  /** If nothing recorded since the poll began is backdated, both hold. */
  lemma WithoutBackdatingAllIsAccounted(t: Trace, w: Watch, now: set<Port>, connected: set<Port>, listedAt: nat)
    requires t.asked <= |t.log| && connected == ConnectedPorts(After(t.start, t.log, t.asked))
    requires var step := PollStep(w, now, connected);
             t.LetsGo(step.lost, Retried(step.watch.misses, connected, step.lost), listedAt)
    requires forall i, p :: t.asked <= i < |t.log| ==> !Backdates(t.log[i], p, listedAt)
    ensures t.cleared <= t.forget
    ensures Accounted(now, PollStep(w, now, connected).watch, listedAt, t.Now())
  {
    var step := PollStep(w, now, connected);
    var retried := Retried(step.watch.misses, connected, step.lost);
    forall p | p in step.lost && p !in t.forget
      ensures !BackdatedIn(After(t.start, t.log, t.told[p]), t.log[t.told[p]..t.looked[p]], p, listedAt)
    {
      NothingBackdated(t, t.told[p], t.looked[p], p, listedAt);
    }
    forall p | p !in now && Misses(step.watch, p) != 1
      ensures !LateConnect(t, p, listedAt)
    {
      NotStaleAtLastLook(t, w, now, connected, listedAt, p);
      NothingBackdated(t, t.LastLook(p), |t.log|, p, listedAt);
    }
    hide BackdatedIn, After, PollStep, Misses, Trace.LetsGo, Trace.LastLook, LateConnect, Accounted;
    ClearedIsForgottenExactly(t, step.lost, retried, listedAt);
    AccountedExactly(t, w, now, connected, listedAt);
  }

  lemma NothingBackdated(t: Trace, i: nat, j: nat, p: Port, listedAt: nat)
    requires t.asked <= i <= j <= |t.log|
    requires forall k :: t.asked <= k < |t.log| ==> !Backdates(t.log[k], p, listedAt)
    ensures !BackdatedIn(After(t.start, t.log, i), t.log[i..j], p, listedAt)
  {
    hide Backdates, Takes, Spares, After;
    forall k: nat | k < |t.log[i..j]|
      ensures !Backdates(t.log[i..j][k], p, listedAt)
    {
      assert t.log[i..j][k] == t.log[i + k];
    }
  }

  /** The first way it goes wrong: a connect stamped 100, a listing at 101, and the record landing once
      the poll has asked. The port is connected, unlisted, never missed, and not connected since. */
  lemma ALateConnectIsUnaccounted(p: Port) returns (t: Trace)
    ensures t.asked <= |t.log|
    ensures
      var w, listedAt := Watch({}, map[]), 101;
      var connected := ConnectedPorts(After(t.start, t.log, t.asked));
      var step := PollStep(w, {}, connected);
      && t.start.now >= listedAt && t.log == [Connected(p, 100, 1)]
      && t.LetsGo(step.lost, Retried(step.watch.misses, connected, step.lost), listedAt)
      && !Accounted({}, step.watch, listedAt, t.Now())
  {
    t := Trace(Registry(map[], 102), [Connected(p, 100, 1)], 0, map[], map[], {}, {});
    assert t.log[..0] == [] && t.log[..1] == t.log;
    assert Land(t.start, []) == t.start;
    assert t.Now() == Record(t.start, Connected(p, 100, 1));
    assert ConnectedIn(t.Now(), p);
  }

  /** The second: two connects race on a lost port. The one stamped 105 lands first and keeps the port
      from being forgotten; the one stamped 100 overwrites it and has the port cleared. */
  lemma ARacingConnectIsClearedUnforgotten(p: Port) returns (t: Trace)
    ensures t.asked <= |t.log|
    ensures
      var w, listedAt := Watch({p}, map[p := 1]), 103;
      var connected := ConnectedPorts(After(t.start, t.log, t.asked));
      var step := PollStep(w, {}, connected);
      && t.start.now >= listedAt && t.log == [Connected(p, 105, 0), Connected(p, 100, 1), Lost(p)]
      && t.LetsGo(step.lost, Retried(step.watch.misses, connected, step.lost), listedAt)
      && p in t.cleared && p !in t.forget
  {
    var log := [Connected(p, 105, 0), Connected(p, 100, 1), Lost(p)];
    t := Trace(Registry(map[], 105), log, 0, map[p := 1], map[p := 2], {}, {p});
    RaceInSteps(p);
    RaceIsLost(p);
    hide After, PollStep, Retried;
  }

  lemma RaceIsLost(p: Port)
    ensures var step := PollStep(Watch({p}, map[p := 1]), {}, {});
            step.lost == {p} && Retried(step.watch.misses, {}, step.lost) == {}
  {
  }

  lemma RaceInSteps(p: Port)
    ensures
      var start, log := Registry(map[], 105), [Connected(p, 105, 0), Connected(p, 100, 1), Lost(p)];
      && ConnectedPorts(After(start, log, 0)) == {}
      && After(start, log, 1) == Registry(map[p := Entry(true, 105)], 105)
      && After(start, log, 2) == Registry(map[p := Entry(true, 100)], 106)
  {
    var start, log := Registry(map[], 105), [Connected(p, 105, 0), Connected(p, 100, 1), Lost(p)];
    assert log[..1][..0] == log[..0] == [] && log[..2][..1] == log[..1];
    assert Land(start, log[..1]) == Record(start, log[0]);
    assert Land(start, log[..2]) == Record(Land(start, log[..1]), log[1]);
  }

  lemma CountNone(w: Watch, now: set<Port>)
    ensures CountMisses(w, {}, now) == w.misses && LostBy(w, {}, now) == {}
  {
  }

  lemma CountOne(w: Watch, done: set<Port>, now: set<Port>, name: Port)
    requires name !in done
    ensures
      var misses := CountMisses(w, done, now);
      var count := SaturatingInc(if name in misses then misses[name] else 0);
      && CountMisses(w, done + {name}, now) == (if name in now then misses - {name} else misses[name := count])
      && LostBy(w, done + {name}, now)
         == LostBy(w, done, now) + (if name !in now && count == MISSES_BEFORE_LOST then {name} else {})
  {
  }

  class SerialWatch {
    /** What the last poll listed and support covers; missing until a first poll has set the baseline. */
    var present: Option<set<Port>>
    var misses: map<Port, nat>

    constructor ()
      ensures present == None && misses == map[]
    {
      present, misses := None, map[];
    }

    ghost function Memory(): Watch
      reads this
    {
      Watch(if present.Some? then present.value else {}, misses)
    }

    /** The counting loop: every watched port is looked up in the listing. */
    method Count(watched: set<Port>, now: set<Port>) returns (lost: set<Port>)
      modifies this`misses
      ensures misses == CountMisses(old(Memory()), watched, now)
      ensures lost == LostBy(old(Memory()), watched, now)
    {
      hide CountMisses, LostBy;
      ghost var before := Memory();
      ghost var done: set<Port> := {};
      CountNone(before, now);
      var todo := watched;
      lost := {};
      while todo != {}
        invariant done !! todo && done + todo == watched
        invariant misses == CountMisses(before, done, now)
        invariant lost == LostBy(before, done, now)
      {
        var name :| name in todo;
        CountOne(before, done, now, name);
        if name in now {
          misses := misses - {name};
        } else {
          var count := SaturatingInc(if name in misses then misses[name] else 0);
          misses := misses[name := count];
          if count == MISSES_BEFORE_LOST {
            lost := lost + {name};
          }
        }
        todo := todo - {name};
        done := done + {name};
      }
      assert done == watched;
    }

    /** Which lost ports' cached writers to drop: every one no connect landed on since. */
    method ForgetLost(lost: set<Port>, listedAt: nat, registry: LocalOutputRegistry)
      returns (forget: set<Port>, ghost told: map<Port, nat>)
      requires registry.Valid()
      modifies registry
      ensures registry.Valid() && old(registry.log) <= registry.log
      ensures Asked(registry.start, registry.log, |old(registry.log)|, told, lost, forget, listedAt)
    {
      hide Asked, Land, Since;
      ghost var lo := |registry.log|;
      ghost var done: set<Port> := {};
      var todo := lost;
      forget, told := {}, map[];
      AskedNone(registry.start, registry.log, lo, listedAt);
      while todo != {}
        invariant done + todo == lost && done !! todo && lo <= |registry.log|
        invariant registry.Valid() && old(registry.log) <= registry.log
        invariant Asked(registry.start, registry.log, lo, told, done, forget, listedAt)
      {
        var port :| port in todo;
        ghost var log := registry.log;
        var landed := registry.ConnectedSince(port, listedAt);
        AskedGrows(registry.start, log, registry.log, lo, told, done, forget, listedAt);
        AskedOneMore(registry.start, registry.log, lo, told, done, forget, listedAt, port);
        told := told[port := |registry.log|];
        if !landed {
          forget := forget + {port};
        }
        todo := todo - {port};
        done := done + {port};
      }
      assert done == lost;
    }

    /** `serial_lost` on every port of `ports`: those cleared, and the last snapshot. */
    method ClearEach(ports: set<Port>, listedAt: nat, registry: LocalOutputRegistry)
      returns (cleared: set<Port>, snapshot: Option<Registry>, ghost looked: map<Port, nat>)
      requires registry.Valid()
      modifies registry
      ensures registry.Valid() && old(registry.log) <= registry.log
      ensures Looked(registry.start, registry.log, |old(registry.log)|, looked, ports, cleared, listedAt)
      ensures ShowsClears(registry.start, registry.log, looked, cleared, snapshot)
    {
      hide Looked, Land, Stale, ShowsClears;
      ghost var lo := |registry.log|;
      ghost var done: set<Port> := {};
      var todo := ports;
      cleared, snapshot, looked := {}, None, map[];
      LookedNone(registry.start, registry.log, lo, listedAt);
      ShowsNone(registry.start, registry.log);
      while todo != {}
        invariant done + todo == ports && done !! todo && lo <= |registry.log|
        invariant registry.Valid() && old(registry.log) <= registry.log
        invariant Looked(registry.start, registry.log, lo, looked, done, cleared, listedAt)
        invariant ShowsClears(registry.start, registry.log, looked, cleared, snapshot)
      {
        var port :| port in todo;
        ghost var log := registry.log;
        LookedWithin(registry.start, log, lo, looked, done, cleared, listedAt);
        var changed;
        ghost var found;
        changed, found := registry.SerialLost(port, listedAt);
        LookedGrows(registry.start, log, registry.log, lo, looked, done, cleared, listedAt);
        LookedOneMore(registry.start, registry.log, lo, looked, done, cleared, listedAt, port, found);
        ShowsGrows(registry.start, log, registry.log, looked, cleared, snapshot, port, found);
        looked := looked[port := found];
        if changed.Some? {
          snapshot := changed;
          cleared := cleared + {port};
          ShowsOneMore(registry.start, registry.log, lo, looked, done + {port}, cleared, listedAt);
        }
        todo := todo - {port};
        done := done + {port};
      }
      assert done == ports;
    }

    /** The registry's half of a poll: lost ports first, then the retried ones. */
    method LetGo(lost: set<Port>, retried: set<Port>, listedAt: nat, registry: LocalOutputRegistry)
      returns (forget: set<Port>, snapshot: Option<Registry>, ghost t: Trace)
      requires registry.Valid() && lost !! retried
      modifies registry
      ensures registry.Valid() && old(registry.log) <= registry.log
      ensures t.start == registry.start && t.log == registry.log && t.asked == |old(registry.log)| && t.forget == forget
      ensures t.LetsGo(lost, retried, listedAt)
      ensures ShowsClears(t.start, t.log, t.looked, t.cleared, snapshot)
    {
      hide Asked, Looked, Land, ShowsClears;
      ghost var lo := |registry.log|;
      ghost var told;
      forget, told := ForgetLost(lost, listedAt, registry);
      ghost var log1 := registry.log;
      var clearedLost, fromLost;
      ghost var looked1;
      clearedLost, fromLost, looked1 := ClearEach(lost, listedAt, registry);
      ghost var log2 := registry.log;
      var clearedLater, fromLater;
      ghost var looked2;
      clearedLater, fromLater, looked2 := ClearEach(retried, listedAt, registry);
      snapshot := if fromLater.Some? then fromLater else fromLost;
      ghost var forgotten := forget;
      forget := forget + clearedLater;

      t := Trace(registry.start, registry.log, lo, told, looked1 + looked2, forget, clearedLost + clearedLater);
      LetsGoInParts(t, log1, log2, looked1, looked2, lost, retried, forgotten, clearedLost, clearedLater, listedAt);
      LookedWithin(t.start, log2, |log1|, looked1, lost, clearedLost, listedAt);
      LookedWithin(t.start, t.log, |log2|, looked2, retried, clearedLater, listedAt);
      ShowsBoth(t.start, log2, t.log, looked1, looked2, clearedLost, clearedLater, fromLost, fromLater);
    }

    /** A poll, given the ports listed at `listedAt`. The trace says where in the registry's log the poll
        asked and looked. */
    method Poll(ports: seq<Descriptor>, listedAt: nat, registry: LocalOutputRegistry)
      returns (outcome: Outcome, ghost t: Trace)
      requires registry.Valid()
      modifies this, registry
      ensures registry.Valid() && old(registry.log) <= registry.log
      ensures t.start == registry.start && t.log == registry.log && |old(registry.log)| <= t.asked <= |t.log|
      ensures present.Some? && Supported(ports) <= present.value
      ensures old(present).None? ==> present.value == Supported(ports) && misses == old(misses) && outcome == QUIET
      ensures old(present).Some? ==>
        var connected := ConnectedPorts(After(t.start, t.log, t.asked));
        var step := PollStep(old(Memory()), Supported(ports), connected);
        && Memory() == step.watch
        && t.LetsGo(step.lost, Retried(step.watch.misses, connected, step.lost), listedAt)
        && outcome.forget == t.forget
        && (outcome.event.Some? <==> step.appeared != {} || step.lost != {} || t.cleared != {})
        && (outcome.event.Some? ==> outcome.event.value == PortsChanged(ports, step.appeared, step.lost))
        && ShowsClears(t.start, t.log, t.looked, t.cleared, outcome.registry)
    {
      hide ConnectedPorts, CountMisses, LostBy, Supported, Trace.LetsGo, Land;
      var now := Supported(ports);
      ghost var memory := Memory();
      var connectedPorts := registry.ConnectedSerialPorts();
      ghost var asked := registry.log;
      assert asked[..|asked|] == asked;
      t := Trace(registry.start, registry.log, |registry.log|, map[], map[], {}, {});
      if present.None? {
        present := Some(now);
        return QUIET, t;
      }
      var lost := Count(present.value + connectedPorts, now);
      var kept := present.value - lost;
      var appeared := now - kept;
      present := Some(kept + appeared);

      var retried := Retried(misses, connectedPorts, lost);
      var forget, snapshot;
      forget, snapshot, t := LetGo(lost, retried, listedAt, registry);
      AfterGrows(registry.start, asked, t.log, |asked|);

      if appeared == {} && lost == {} && snapshot.None? {
        NothingForgotten(t, lost, retried, listedAt);
        return QUIET, t;
      }
      outcome := Outcome(Some(PortsChanged(ports, appeared, lost)), forget, snapshot);
    }
  }
}
