/** The single bus monitor that all config entries share, as set-up and unload of entries hand it
around under its lock. */
module SharedCollector {
  import opened Common
  import opened BusMonitor

  class Domain {
    const printable: char -> bool
    const size: BusMessage -> nat
    var stored: BusMonitor?
    // The monitor each entry holds, from its set-up to its release.
    var held: map<string, BusMonitor>

    /** Holds whenever the lock is free: the monitor is stored iff somebody holds it, and then it
        is enabled, subscribed to every topic, and as large as its largest holder asks. */
    ghost predicate Valid()
      reads this, stored
    {
      && (stored == null <==> held == map[])
      && (stored != null ==>
            && stored.Ring() && stored.Shared()
            && stored.owners.Keys == held.Keys
            && forall e :: e in held ==> held[e] == stored)
    }

    constructor (printable: char -> bool, size: BusMessage -> nat)
      ensures Valid() && held == map[]
    {
      this.printable, this.size, stored, held := printable, size, null, map[];
    }

    /** `_async_acquire_bus_monitor`: join the stored monitor, or store a new one once it runs. */
    method AsyncAcquireBusMonitor(entry: string, limit: nat) returns (ok: bool)
      requires Valid() && entry !in held
      modifies this, stored
      ensures Valid() && (old(stored) == null ==> stored == null || fresh(stored))
      ensures old(stored) != null ==> ok && stored == old(stored)
      ensures !ok ==> held == map[] && stored == null
      ensures ok ==> held.Keys == old(held).Keys + {entry} && stored.owners[entry] == limit
      ensures ok ==> forall e :: e in old(held) ==> stored.owners[e] == old(stored.owners[e])
    {
      var monitor := stored;
      if monitor == null { monitor := new BusMonitor(printable, size); }
      ok := monitor.AsyncAcquire(entry, limit);
      if ok {
        stored := monitor;
        held := held[entry := monitor];
      }
    }

    /** Give the share of an entry back; the last one takes the monitor away. */
    method Release(entry: string)
      requires Valid() && entry in held
      modifies this, stored
      ensures Valid() && held == old(held) - {entry}
      ensures stored == if held == map[] then null else old(stored)
      ensures stored != null ==> stored.owners == old(stored.owners) - {entry}
      ensures old(stored).unsubscribers == if stored == null then 0 else MONITORED_TOPICS
    {
      var monitor := held[entry];
      monitor.AsyncRelease(entry);
      held := held - {entry};
      if !monitor.enabled { stored := null; }
    }

    /** `async_unload_entry`, which gives up while the PIC still has to be restored. */
    method AsyncUnloadEntry(entry: string, restored: bool, platformsUnloaded: bool) returns (unloaded: bool)
      requires Valid()
      modifies this, stored
      ensures Valid() && (unloaded <==> restored && platformsUnloaded)
      ensures held == if unloaded then old(held) - {entry} else old(held)
      ensures !unloaded ==> stored == old(stored)
    {
      if !restored { return false; }
      unloaded := platformsUnloaded;
      if unloaded {
        if entry in held { Release(entry); } else { assert held - {entry} == held; }
      }
    }
  }

  datatype Input =
    | SetUp(entry: string, limit: nat)
    | SetUpFails(entry: string)
    | Unload(entry: string, restored: bool, platformsUnloaded: bool)
    | Arrivals
    | Clear

  /** Any sequence of set-ups and unloads, with messages arriving in between. */
  method Live(printable: char -> bool, size: BusMessage -> nat, inputs: seq<Input>) returns (domain: Domain)
    ensures domain.stored != null <==> domain.held != map[]
    ensures var monitor := domain.stored; monitor != null ==>
      && monitor.owners.Keys == domain.held.Keys && monitor.enabled && monitor.unsubscribers == MONITORED_TOPICS
      && IsMax(monitor.owners, monitor.capacity) && |monitor.messages| <= monitor.capacity
      && monitor.receivedTotal == |monitor.messages| + monitor.discardedTotal + monitor.cleared + monitor.dropped
      && SumOfCounts(monitor.kindCounts) == monitor.receivedTotal
  {
    domain := new Domain(printable, size);
    for i := 0 to |inputs|
      invariant fresh(domain) && domain.Valid() && (domain.stored != null ==> fresh(domain.stored))
    {
      match inputs[i]
      case SetUp(entry, limit) =>
        if entry !in domain.held {
          var _ := domain.AsyncAcquireBusMonitor(entry, limit);
        }
      case SetUpFails(entry) =>
        if entry in domain.held { domain.Release(entry); }
      case Unload(entry, restored, platformsUnloaded) =>
        var _ := domain.AsyncUnloadEntry(entry, restored, platformsUnloaded);
      case Arrivals =>
        if domain.stored != null { domain.stored.MessagesRun(); }
      case Clear =>
        if domain.stored != null { domain.stored.Clear(); }
    }
    if domain.stored != null {
      KindCountsAddUp(domain.stored.kindCounts, domain.stored.history);
    }
  }
}
