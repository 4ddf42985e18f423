/** Publication and its rollback as the program performs them: calls that change the root in place, two flags, and
    error paths. Every call is one step of the state machine of module Publication. */
module Publisher {
  import opened BackupRoot
  import opened Publication
  import opened PublicationSafety
  import opened PublicationHistory
  import opened PublicationRollback

  predicate Renames(m: Machine, src: Name, dst: Name) {
    var job := m.run.job;
    || (m.pc.Promote? && src == Partial(job.setName) && dst == Final(job.setName))
    || (m.pc.SwapMarker? && src == Temp(job.nonce) && dst == Marker)
    || (m.pc.ReplaceRollback? && src == Rollback(job.nonce) && dst == Marker)
    || (m.pc.Demote? && src == Final(job.setName) && dst == Partial(job.setName))
  }

  predicate Writes(m: Machine, n: Name, bytes: Bytes) {
    || (m.pc.WriteTemp? && n == Temp(m.run.job.nonce) && bytes == MetadataOf(m.run.job))
    || (m.pc.WriteRollback? && n == Rollback(m.run.job.nonce) && m.run.previous == Found(bytes))
  }

  predicate Unlinks(m: Machine, n: Name) {
    || (m.pc.UnlinkMarker? && n == Marker)
    || (m.pc.RemoveRollback? && n == Rollback(m.run.job.nonce))
    || (m.pc.RemoveTemp? && n == Temp(m.run.job.nonce))
  }

  predicate Syncs(pc: Pc) {
    pc.SyncPromoted? || pc.SyncMarker? || pc.SyncRestored? || pc.SyncDemoted?
  }

  lemma RenameStep(m: Machine, o: Outcome, src: Name, dst: Name)
    requires Renames(m, src, dst)
    ensures var after := Step(m, o); var possible := CanRename(m.disk.view, src, dst);
      && after.disk.view == (if possible && Took(o) then Rename(m.disk.view, src, dst) else m.disk.view)
      && after.run == m.run
    ensures m.pc.Promote? ==> Step(m, o).pc == if !(CanRename(m.disk.view, src, dst) && o.end.Done?) then Demote else SyncPromoted
    ensures m.pc.SwapMarker? ==> Step(m, o).pc == if !(CanRename(m.disk.view, src, dst) && o.end.Done?) then RereadMarker else SyncMarker
    ensures m.pc.ReplaceRollback? ==> Step(m, o).pc == if !(CanRename(m.disk.view, src, dst) && o.end.Done?) then RemoveRollback else SyncRestored
    ensures m.pc.Demote? ==> Step(m, o).pc == if !(CanRename(m.disk.view, src, dst) && o.end.Done?) then RemoveTemp else SyncDemoted
  {
  }

  lemma WriteStep(m: Machine, o: Outcome, n: Name, bytes: Bytes)
    requires Writes(m, n, bytes)
    ensures var after := Step(m, o); var v := m.disk.view; var torn := o.end.Torn? && o.left.File?;
      && after.disk.view == (if n !in v && (Took(o) || torn)
                             then v[n := if torn then Unsynced(o.left) else File(bytes, true)] else v)
      && after.run == m.run
    ensures m.pc.WriteTemp? ==> Step(m, o).pc == if !(n !in m.disk.view && o.end.Done?) then RemoveTemp else Promote
    ensures m.pc.WriteRollback? ==> Step(m, o).pc == if !(n !in m.disk.view && o.end.Done?) then RemoveRollback else ReplaceRollback
  {
  }

  lemma UnlinkStep(m: Machine, o: Outcome, n: Name)
    requires Unlinks(m, n)
    ensures var after := Step(m, o);
      && after.disk.view == (if Took(o) then m.disk.view - {n} else m.disk.view)
      && after.run == m.run
    ensures m.pc.UnlinkMarker? ==> Step(m, o).pc == if !(o.end.Done?) then RemoveRollback else SyncRestored
    ensures m.pc.RemoveRollback? ==> Step(m, o).pc == RemoveTemp
    ensures m.pc.RemoveTemp? ==> Step(m, o).pc == RolledBack
  {
  }

  lemma SyncStep(m: Machine, o: Outcome)
    requires Syncs(m.pc)
    ensures var after := Step(m, o);
      && after.disk.view == m.disk.view
      && after.run == m.run
    ensures m.pc.SyncPromoted? ==> Step(m, o).pc == if !(o.end.Done?) then Demote else SwapMarker
    ensures m.pc.SyncMarker? ==> Step(m, o).pc == if !(o.end.Done?) then RereadMarker else ListSets
    ensures m.pc.SyncRestored? ==> Step(m, o).pc == if !(o.end.Done?) then RemoveRollback else Demote
    ensures m.pc.SyncDemoted? ==> Step(m, o).pc == RemoveTemp
  {
  }

  class Root {
    var entries: Dir
    ghost var base: Machine
    ghost var log: seq<Event>
    ghost var m: Machine
    /** How many of the logged calls did not do as asked. */
    ghost var failed: nat

    /** The live entries are those the machine has after the logged calls. */
    ghost predicate Valid()
      reads this
    {
      Inv(base) && m == Replay(base, log) && entries == m.disk.view && OnlyCalls(log) && failed == Failures(log)
    }

    ghost method Advance(o: Outcome)
      requires Inv(base) && m == Replay(base, log) && entries == Step(m, o).disk.view
      requires OnlyCalls(log) && failed == Failures(log)
      modifies this`log, this`m, this`failed
      ensures Valid() && m == Step(old(m), o) && log == old(log) + [Continue(o)]
      ensures failed == old(failed) + if o.end.Done? then 0 else 1
    {
      OneFailureMore(log, Continue(o));
      log := log + [Continue(o)];
      assert log[..|log| - 1] == old(log);
      m := Step(m, o);
      failed := failed + if o.end.Done? then 0 else 1;
    }

    // ---------- calls, each of which may fail before or after its effect ----------

    method Replace(src: Name, dst: Name) returns (raised: bool)
      requires Valid() && Renames(m, src, dst)
      modifies this
      ensures Valid() && base == old(base) && m.run == old(m.run)
      ensures old(m.pc).Promote? ==> m.pc == if raised then Demote else SyncPromoted
      ensures old(m.pc).SwapMarker? ==> m.pc == if raised then RereadMarker else SyncMarker
      ensures old(m.pc).ReplaceRollback? ==> m.pc == if raised then RemoveRollback else SyncRestored
      ensures old(m.pc).Demote? ==> m.pc == if raised then RemoveTemp else SyncDemoted
      ensures !raised ==> CanRename(old(entries), src, dst) && entries == Rename(old(entries), src, dst)
      ensures old(failed) <= failed && (failed == old(failed) && CanRename(old(entries), src, dst) ==> !raised)
    {
      var o: Outcome := *;
      RenameStep(m, o, src, dst);
      raised := true;
      if CanRename(entries, src, dst) && Took(o) {
        entries := Rename(entries, src, dst);
        raised := !o.end.Done?;
      }
      Advance(o);
    }

    method WriteFile(n: Name, bytes: Bytes) returns (raised: bool)
      requires Valid() && Writes(m, n, bytes)
      modifies this
      ensures Valid() && base == old(base) && m.run == old(m.run)
      ensures old(m.pc).WriteTemp? ==> m.pc == if raised then RemoveTemp else Promote
      ensures old(m.pc).WriteRollback? ==> m.pc == if raised then RemoveRollback else ReplaceRollback
      ensures !raised ==> n !in old(entries) && entries == old(entries)[n := File(bytes, true)]
      ensures old(failed) <= failed && (failed == old(failed) && n !in old(entries) ==> !raised)
    {
      var o: Outcome := *;
      WriteStep(m, o, n, bytes);
      raised := true;
      if n !in entries {
        if o.end.Torn? && o.left.File? {
          entries := entries[n := Unsynced(o.left)];
        } else if Took(o) {
          entries := entries[n := File(bytes, true)];
          raised := !o.end.Done?;
        }
      }
      Advance(o);
    }

    method Unlink(n: Name) returns (raised: bool)
      requires Valid() && Unlinks(m, n)
      modifies this
      ensures Valid() && base == old(base) && m.run == old(m.run)
      ensures old(m.pc).UnlinkMarker? ==> m.pc == if raised then RemoveRollback else SyncRestored
      ensures old(m.pc).RemoveRollback? ==> m.pc == RemoveTemp
      ensures old(m.pc).RemoveTemp? ==> m.pc == RolledBack
      ensures !raised ==> entries == old(entries) - {n}
      ensures |log| == |old(log)| + 1 && old(log) <= log
      ensures old(failed) <= failed && (failed == old(failed) ==> !raised)
    {
      var o: Outcome := *;
      UnlinkStep(m, o, n);
      raised := !o.end.Done?;
      if Took(o) {
        entries := entries - {n};
      }
      Advance(o);
    }

    method SyncRoot() returns (raised: bool)
      requires Valid() && Syncs(m.pc)
      modifies this`log, this`m, this`failed
      ensures Valid() && base == old(base) && m.run == old(m.run)
      ensures old(m.pc).SyncPromoted? ==> m.pc == if raised then Demote else SwapMarker
      ensures old(m.pc).SyncMarker? ==> m.pc == if raised then RereadMarker else ListSets
      ensures old(m.pc).SyncRestored? ==> m.pc == if raised then RemoveRollback else Demote
      ensures old(m.pc).SyncDemoted? ==> m.pc == RemoveTemp
      ensures old(failed) <= failed && (failed == old(failed) ==> !raised)
    {
      var o: Outcome := *;
      SyncStep(m, o);
      raised := !o.end.Done?;
      Advance(o);
    }

    method ReadPreviousMarker() returns (read: MarkerRead)
      requires Valid() && m.pc.ReadPrevious?
      modifies this`log, this`m, this`failed
      ensures Valid() && base == old(base)
      ensures m.run == old(m.run).(previous := read, prior := entries)
      ensures m.pc == if read.Unreadable? then RemoveTemp else WriteTemp
      ensures read.Unreadable? || read == ReadMarker(entries)
    {
      var o: Outcome := *;
      read := if o.end.Done? then ReadMarker(entries) else Unreadable;
      Advance(o);
    }

    method RereadCurrentMarker() returns (current: MarkerRead)
      requires Valid() && m.pc.RereadMarker?
      modifies this`log, this`m, this`failed
      ensures Valid() && base == old(base) && m.run == old(m.run)
      ensures m.pc == if current.Unreadable? then RemoveTemp else AfterReread(entries, m.run, Outcome(Done, File(Junk(0), true)))
      ensures current.Unreadable? || current == ReadMarker(entries)
      ensures old(failed) <= failed && (failed == old(failed) ==> current == ReadMarker(entries))
    {
      var o: Outcome := *;
      current := if o.end.Done? then ReadMarker(entries) else Unreadable;
      Advance(o);
    }

    // ---------- _restore_marker ----------

    /** Puts the earlier marker back by way of a private file. */
    method PutBack(previous: Bytes, nonce: string) returns (raised: bool)
      requires Valid() && m.pc.WriteRollback? && m.run.previous == Found(previous) && nonce == m.run.job.nonce
      requires Marker in entries ==> entries[Marker].File?
      modifies this
      ensures Valid() && base == old(base) && m.run == old(m.run)
      ensures m.pc == if raised then RemoveRollback else SyncRestored
      ensures old(failed) <= failed
      ensures failed == old(failed) && Rollback(nonce) !in old(entries) ==> !raised
      ensures !raised ==> Marker in entries && entries[Marker] == File(previous, true)
    {
      hide Inv, Replay, Failures, OnlyCalls;
      raised := WriteFile(Rollback(nonce), previous);
      if !raised {
        raised := Replace(Rollback(nonce), Marker);
      }
    }

    method RestoreMarker(previous: MarkerRead, published: Bytes, nonce: string) returns (restored: bool)
      requires Valid() && m.pc.RereadMarker?
      requires previous == m.run.previous && published == MetadataOf(m.run.job) && nonce == m.run.job.nonce
      modifies this
      ensures Valid() && base == old(base) && m.run == old(m.run)
      ensures m.pc == if restored then Demote else RemoveTemp
      ensures old(failed) <= failed && (failed == old(failed) && Rollback(nonce) !in old(entries) ==> restored)
    {
      ReplayKeeps(base, log);
      RereadFacts(m);
      hide Inv, Replay, TrustedMarker, Failures, OnlyCalls;
      var raised := false;
      var current := RereadCurrentMarker();
      if current.Unreadable? {
        return false;
      }
      if current != previous {
        if current != Found(published) {
          return false;
        }
        if !previous.Found? {
          raised := Unlink(Marker);
        } else {
          if !TrustedMarker(previous.bytes, entries) {
            return false;
          }
          raised := PutBack(previous.bytes, nonce);
        }
      }
      if !raised {
        raised := SyncRoot();
      }
      if raised {
        raised := Unlink(Rollback(nonce));
        return false;
      }
      return true;
    }

    // ---------- _publish_backup ----------

    /** The `try` block; `raised` tells that the handler has to run. */
    method TryPublish(setName: string, nonce: string, metadata: Bytes)
      returns (raised: bool, promoted: bool, markerReplaced: bool, previous: MarkerRead)
      requires Valid() && m.pc.ReadPrevious?
      requires setName == m.run.job.setName && nonce == m.run.job.nonce && metadata == MetadataOf(m.run.job)
      modifies this
      ensures Valid() && base == old(base)
      ensures m.run.job == old(m.run.job) && m.run.prior == old(entries) && m.run.previous == previous
      ensures m.pc == if !raised then ListSets else if markerReplaced then RereadMarker
                      else if promoted then Demote else RemoveTemp
      ensures markerReplaced ==> promoted
    {
      promoted, markerReplaced := false, false;
      previous := ReadPreviousMarker();
      raised := previous.Unreadable?;
      if !raised {
        raised := WriteFile(Temp(nonce), metadata);
      }
      if !raised {
        promoted := true;
        raised := Replace(Partial(setName), Final(setName));
      }
      if !raised {
        raised := SyncRoot();
      }
      if !raised {
        markerReplaced := true;
        raised := Replace(Temp(nonce), Marker);
      }
      if !raised {
        raised := SyncRoot();
      }
    }

    /** The handler, after `_restore_marker`. */
    method Withdraw(setName: string, nonce: string, demote: bool) returns (removed: bool)
      requires Valid() && m.pc == if demote then Demote else RemoveTemp
      requires setName == m.run.job.setName && nonce == m.run.job.nonce
      modifies this
      ensures Valid() && base == old(base) && m.run == old(m.run)
      ensures m.pc == RolledBack && (removed ==> Temp(nonce) !in entries)
      ensures log != [] && Replay(base, log[..|log| - 1]).pc.RemoveTemp?
    {
      if demote {
        var raised := Replace(Final(setName), Partial(setName));
        if !raised {
          raised := SyncRoot();
        }
      }
      ghost var before := log;
      var raised := Unlink(Temp(nonce));
      removed := !raised;
      assert log[..|log| - 1] == before;
    }

    /** Either returns with the set published, or raises with the rollback done as far as it went. */
    method Publish(setName: string, nonce: string, metadata: Bytes) returns (published: bool)
      requires Valid() && log == [] && m.pc.ReadPrevious?
      requires setName == m.run.job.setName && nonce == m.run.job.nonce && metadata == MetadataOf(m.run.job)
      modifies this
      ensures Valid() && m == Replay(old(m), log) && m.run.job == old(m.run.job)
      ensures m.pc == if published then ListSets else RolledBack
      ensures published ==> Marker in entries && entries[Marker] == File(metadata, true)
                            && Inspect(entries) == Some(Instant(setName))
      ensures !published ==> (m.undone <==> entries == old(entries) - {Temp(nonce)})
      ensures !published && Rollback(nonce) !in old(entries) && HandlerWell(old(m), log) ==>
        entries == old(entries) - {Temp(nonce)}
      ensures AllWell(log) && Temp(nonce) !in old(entries) && old(m.run.job.retention) > 0 ==> published
    {
      ReplayNothing(base);
      hide Inv, Replay, Failures, OnlyCalls, HandlerWell;
      var raised, promoted, markerReplaced, previous := TryPublish(setName, nonce, metadata);
      if raised {
        var markerRestored := true;
        if markerReplaced {
          markerRestored := RestoreMarker(previous, metadata, nonce);
        }
        var _ := Withdraw(setName, nonce, promoted && markerRestored);
        ReplayKeeps(base, log);
        RolledBackExactly(m);
        if HandlerWell(base, log) && Rollback(nonce) !in old(entries) {
          RaisedPublicationIsUndone(base, log);
        }
        if AllWell(log) && Temp(nonce) !in old(entries) && base.run.job.retention > 0 {
          FaultlessNeverRaises(base, log);
        }
      } else {
        ReplayKeeps(base, log);
        ServedIsReadBack(m, entries);
      }
      published := !raised;
    }
  }
}
