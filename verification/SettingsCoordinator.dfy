/** The settings coordinator as it is coded: the gate's fields and counters, and the
    three transaction bodies that run while holding the raw-settings lock. */
module SettingsCoordinator {
  import opened Common
  import opened SettingsProtocol

  class SettingsPersistenceCoordinator {
    var raw: Settings
    var settings: Settings
    var file: Option<Settings>
    var closed: bool
    var latestAdmittedTrackerSequence: nat
    var nextTrackerSequence: nat
    var activeTransactions: nat

    ghost function Supervisor(): Gate
      reads this
    {
      Gate(closed, latestAdmittedTrackerSequence, nextTrackerSequence, activeTransactions)
    }

    /** Outside a transaction the file and the live settings agree with `raw`. */
    ghost predicate Valid()
      reads this
    {
      (file.Some? ==> file.value == raw) && SameUnprotected(raw, settings)
    }

    constructor (raw: Settings, settings: Settings)
      requires SameUnprotected(raw, settings)
      ensures Valid() && this.raw == raw && this.settings == settings && file.None?
      ensures Supervisor() == Gate(false, 0, 0, 0)
    {
      this.raw, this.settings, file := raw, settings, None;
      closed, latestAdmittedTrackerSequence := false, 0;
      nextTrackerSequence, activeTransactions := 0, 0;
    }

    method NextSequence() returns (sequence: nat)
      modifies this`nextTrackerSequence
      ensures Supervisor() == DrawSequence(old(Supervisor()))
      ensures sequence == nextTrackerSequence == old(nextTrackerSequence) + 1
    {
      nextTrackerSequence := nextTrackerSequence + 1;
      sequence := nextTrackerSequence;
    }

    method RegisterTransaction(trackerSequence: Option<nat>) returns (admitted: bool)
      modifies this`latestAdmittedTrackerSequence, this`activeTransactions
      ensures admitted == !closed
      ensures Supervisor() ==
        if admitted then Admit(old(Supervisor()), trackerSequence) else old(Supervisor())
      ensures activeTransactions == old(activeTransactions) + if admitted then 1 else 0
      ensures latestAdmittedTrackerSequence >= old(latestAdmittedTrackerSequence)
      ensures latestAdmittedTrackerSequence == old(latestAdmittedTrackerSequence) ||
        (admitted && trackerSequence == Some(latestAdmittedTrackerSequence))
      ensures admitted && trackerSequence.Some? ==> trackerSequence.value <= latestAdmittedTrackerSequence
    {
      if closed {
        return false;
      }
      if trackerSequence.Some? && latestAdmittedTrackerSequence < trackerSequence.value {
        latestAdmittedTrackerSequence := trackerSequence.value;
      }
      activeTransactions := activeTransactions + 1;
      admitted := true;
    }

    /** Dropping the active guard; waiters are told when the count reaches zero. */
    method TransactionDropped() returns (notified: bool)
      requires activeTransactions > 0
      modifies this`activeTransactions
      ensures Supervisor() == Leave(old(Supervisor())) && activeTransactions == old(activeTransactions) - 1
      ensures notified <==> activeTransactions == 0
    {
      notified := activeTransactions == 1;
      activeTransactions := activeTransactions - 1;
    }

    method CloseGate()
      modifies this`closed
      ensures Supervisor() == old(Supervisor()).(closed := true) && closed
    {
      if !closed {
        closed := true;
      }
    }

    /** Writing the file either replaces it as a whole or leaves it alone. */
    method PersistSettings(disk: Settings, persistOk: bool)
      modifies this`file
      ensures file == if persistOk then Some(disk) else old(file)
    {
      if persistOk {
        file := Some(disk);
      }
    }

    method SaveTransaction(persistOk: bool) returns (ok: bool)
      requires Valid()
      modifies this`file, this`raw
      ensures Valid() && ok == persistOk
      ensures raw == if ok then Candidate(Save, settings, old(raw)) else old(raw)
      ensures file == if ok then Some(raw) else old(file)
      ensures SameUnprotected(raw, old(raw)) && SameProtected(raw, old(raw))
    {
      var disk := PreserveProtected(settings, raw);
      PersistSettings(disk, persistOk);
      if persistOk {
        raw := disk;
      }
      ok := persistOk;
    }

    method TrackerTransaction(sequence: nat, trackers: seq<string>, timestamp: int, persistOk: bool)
      returns (ok: bool)
      requires Valid()
      modifies this`file, this`raw, this`settings
      ensures Valid() && SameProtected(raw, old(raw)) && SameProtected(settings, old(settings))
      ensures var wrote := sequence >= latestAdmittedTrackerSequence && persistOk;
        && settings == (if wrote then Proposed(Tracker(sequence, trackers, timestamp), old(settings))
                        else old(settings))
        && raw == (if wrote then Candidate(Tracker(sequence, trackers, timestamp), old(settings), old(raw))
                   else old(raw))
        && file == (if wrote then Some(raw) else old(file))
      ensures ok <==> sequence < latestAdmittedTrackerSequence || persistOk
    {
      if sequence < latestAdmittedTrackerSequence {
        return true;
      }
      var next := settings.(trackers := trackers);
      next := next.(trackersUpdated := timestamp);
      var disk := PreserveProtected(next, raw);
      PersistSettings(disk, persistOk);
      if !persistOk {
        return false;
      }
      raw := disk;
      settings := next;
      ok := true;
    }

    method UpdateTransaction(update: Kind, persistOk: bool) returns (ok: bool)
      requires Valid() && update.Update?
      modifies this`file, this`raw, this`settings
      ensures Valid()
      ensures ok <==> !Forbidden(update, old(settings)) && persistOk
      ensures settings == if ok then Proposed(update, old(settings)) else old(settings)
      ensures raw == if ok then Candidate(update, old(settings), old(raw)) else old(raw)
      ensures file == if ok then Some(raw) else old(file)
      ensures forall p :: ok && ChangesIt(update, p, old(settings)) ==> ValueOf(raw, p) == Named(update, p).value
      ensures forall p :: !ok || !ChangesIt(update, p, old(settings)) ==> ValueOf(raw, p) == ValueOf(old(raw), p)
      ensures !update.trusted ==> SameProtected(raw, old(raw))
    {
      var prepared := PrepareSettingsUpdate(settings, update);
      if prepared.None? {
        return false;
      }
      var next := prepared.value.next.(rest := settings.rest + update.changes);
      var disk := next;
      if !prepared.value.privateSourcesChanged {
        disk := disk.(privateSources := raw.privateSources);
      }
      if !prepared.value.invalidTlsChanged {
        disk := disk.(invalidTls := raw.invalidTls);
      }
      PersistSettings(disk, persistOk);
      if !persistOk {
        return false;
      }
      raw := disk;
      settings := next;
      ok := true;
    }
  }

  datatype PreparedSettingsUpdate =
    PreparedSettingsUpdate(next: Settings, privateSourcesChanged: bool, invalidTlsChanged: bool)

  /** The protected part of an update, refused when an untrusted caller would change it. */
  method PrepareSettingsUpdate(current: Settings, update: Kind) returns (prepared: Option<PreparedSettingsUpdate>)
    requires update.Update?
    ensures prepared.None? <==> Forbidden(update, current)
    ensures prepared.Some? ==>
      && SameUnprotected(prepared.value.next, current)
      && SameProtected(prepared.value.next, Proposed(update, current))
      && (prepared.value.privateSourcesChanged <==> prepared.value.next.privateSources != current.privateSources)
      && (prepared.value.invalidTlsChanged <==> prepared.value.next.invalidTls != current.invalidTls)
  {
    var next := current;
    var privateChanged, tlsChanged := false, false;
    if update.privateSources.Some? {
      privateChanged := update.privateSources.value != current.privateSources;
      if privateChanged && !update.trusted {
        return None;
      }
      next := next.(privateSources := update.privateSources.value);
    }
    if update.invalidTls.Some? {
      tlsChanged := update.invalidTls.value != current.invalidTls;
      if tlsChanged && !update.trusted {
        return None;
      }
      next := next.(invalidTls := update.invalidTls.value);
    }
    prepared := Some(PreparedSettingsUpdate(next, privateChanged, tlsChanged));
  }
}
