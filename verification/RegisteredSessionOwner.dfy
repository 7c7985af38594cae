/**
 The imperative owner of one registered TLS session. Its view is the world of
 `RegisteredTransport` with a single owner, and each method is a run of that
 machine's steps: whatever others do to the shared table happens between calls.
 */
module RegisteredSessionOwner {
  import opened Vocabulary
  import R = SessionRegistry
  import T = RegisteredTransport

  /** The mutex-guarded table every owner refers to. */
  class SharedTable {
    var table: R.Table
    var poisoned: bool

    constructor ()
      ensures table == R.EMPTY && !poisoned
    {
      table, poisoned := R.EMPTY, false;
    }
  }

  const ME: nat := 0

  class RegisteredControlSession {
    const shared: SharedTable
    const key: PeerKey
    const id: SessionId
    var open: bool
    var retired: bool
    var phase: T.Phase
    var log: seq<T.Effect>

    function View(): T.World
      reads this, shared
    {
      T.World(shared.table, shared.poisoned, map[ME := T.Owner(key, id, open, retired, phase)], 1, log)
    }

    /** Takes an authenticated session over after the table has accepted it. */
    constructor (shared: SharedTable, key: PeerKey, id: SessionId)
      ensures this.shared == shared && this.key == key && this.id == id
      ensures open && !retired && phase.Idle? && log == []
    {
      this.shared, this.key, this.id := shared, key, id;
      open, retired, phase, log := true, false, T.Idle, [];
    }

    /** A rejected session is dropped, which closes its socket; only an accepted one gets an owner. */
    static method Admit(shared: SharedTable, key: PeerKey, id: SessionId)
      returns (owner: RegisteredControlSession?, why: R.Registration)
      modifies shared
      ensures owner != null <==>
                old(T.Accepted(T.World(shared.table, shared.poisoned, map[], 0, []), T.OnAdmit(key, id)))
      ensures owner != null ==> fresh(owner) && owner.shared == shared && owner.key == key && owner.id == id
                                && R.HoldsActive(shared.table, key, id)
                                && T.MayContinue(owner.View(), owner.View().owners[ME])
      ensures owner == null ==> shared.table == old(shared.table)
      ensures !old(shared.poisoned) ==> shared.table == R.Activate(old(shared.table), key, id).0
      ensures shared.poisoned == old(shared.poisoned)
    {
      R.AdmissionExactly(shared.table, key, id);
      owner, why := null, R.Rejected(R.DuplicateActiveSession);
      if shared.poisoned { return; }
      var (next, registration) := R.Activate(shared.table, key, id);
      match registration
      case New | Recovered =>
        shared.table, why := next, registration;
        owner := new RegisteredControlSession(shared, key, id);
      case AlreadyActive =>
      case Rejected(_) => why := registration;
    }

    method CloseAndRetire()
      modifies this, shared
      ensures View() == T.FinishRetire(T.StartClose(old(View()), ME, false), ME)
    {
      open := false;
      log := log + [T.SocketClosed(ME)];
      if R.Holds(shared.table, key, id) {
        shared.table := R.RemoveIfCurrent(shared.table, key, id).0;
        log := log + [T.SlotFreed(ME)];
      }
      retired, phase := true, T.Idle;
    }

    method EnsureActiveRegistration() returns (ok: bool)
      modifies this, shared
      ensures ok == T.MayContinue(old(View()), old(View()).owners[ME])
      ensures ok ==> View() == old(View())
      ensures !ok ==> View() == T.FinishRetire(T.StartClose(old(View()), ME, false), ME)
    {
      ok := !shared.poisoned && R.HoldsActive(shared.table, key, id);
      if !ok { CloseAndRetire(); return; }
      if !open { CloseAndRetire(); return false; }
    }

    /** Up to the blocking call of a receive, heartbeat, goodbye or approval recheck. */
    method Begin(io: T.Io) returns (ok: bool)
      requires phase.Idle?
      modifies this, shared
      ensures ok == T.MayContinue(old(View()), old(View()).owners[ME])
      ensures View() == if ok then T.BeginIo(old(View()), ME, io)
              else T.FinishRetire(T.BeginIo(old(View()), ME, io), ME)
    {
      ok := EnsureActiveRegistration();
      if ok { phase := T.Busy(io); }
    }

    /** From the blocking call's outcome to the answer the daemon sees. */
    method End(outcome: T.Outcome) returns (delivered: bool)
      requires phase.Busy?
      modifies this, shared
      ensures delivered == (outcome.Success? && T.MayContinue(old(View()), old(View()).owners[ME]))
      ensures View() == if delivered then T.EndIo(old(View()), ME, outcome)
              else T.FinishRetire(T.EndIo(old(View()), ME, outcome), ME)
    {
      var io := phase.io;
      if outcome.Failure? || outcome.PeerClosed? {
        CloseAndRetire();
        return false;
      }
      delivered := EnsureActiveRegistration();
      if delivered {
        phase := T.Idle;
        log := log + [if io.Read? then T.Delivered(ME) else T.Sent(ME)];
      }
    }

    method Cancel()
      modifies this, shared
      ensures View() == T.FinishRetire(T.StartClose(old(View()), ME, false), ME)
    {
      CloseAndRetire();
    }

    method CancelIfCurrentForPeer(expectedKey: PeerKey, expectedId: SessionId) returns (cancelled: bool)
      modifies this, shared
      ensures cancelled == (expectedKey == key && expectedId == id)
      ensures View() == if cancelled then T.FinishRetire(T.StartClose(old(View()), ME, false), ME) else old(View())
    {
      if key != expectedKey || id != expectedId { return false; }
      CloseAndRetire();
      cancelled := true;
    }
  }
}
