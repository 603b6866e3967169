/**
 * The bot status record the dashboard polls: one record kept in a status file and
 * rewritten by every update. The file is the `file` field of a `StatusStore` object
 * (`None` when it does not exist yet). Reading the file and writing it can each fail;
 * an `Io` parameter says which of them does on a call, and the clock's ISO text is a
 * parameter too.
 */
module BotStatus {
  import opened Wrappers

  datatype Presence = Online | Offline

  datatype Status = Status(
    status: Presence,
    lastActive: Option<string>,
    commands: int,
    servers: int,
    uptime: int,
    isDisabled: bool,
    lastRestart: Option<string>)

  /** The record a missing or unreadable file stands for. */
  const DefaultStatus: Status := Status(Offline, None, 0, 0, 0, false, None)

  /** The fields an update object sets; every other field keeps its value. */
  datatype Update = Update(
    status: Option<Presence>,
    lastActive: Option<string>,
    commands: Option<int>,
    servers: Option<int>,
    isDisabled: Option<bool>,
    lastRestart: Option<string>)

  const NoChange: Update := Update(None, None, None, None, None, None)

  /** Which file operation fails on this call, if any. */
  datatype Io = Works | ReadFails | WriteFails

  /** `{ ...current, ...updates }`: each field the update sets is taken from it, the rest from `current`. */
  function Merge(current: Status, u: Update): (r: Status)
    ensures u.status.Some? ==> r.status == u.status.value
    ensures u.status.None? ==> r.status == current.status
    ensures u.lastActive.Some? ==> r.lastActive == u.lastActive
    ensures u.lastActive.None? ==> r.lastActive == current.lastActive
    ensures u.commands.Some? ==> r.commands == u.commands.value
    ensures u.commands.None? ==> r.commands == current.commands
    ensures u.servers.Some? ==> r.servers == u.servers.value
    ensures u.servers.None? ==> r.servers == current.servers
    ensures u.isDisabled.Some? ==> r.isDisabled == u.isDisabled.value
    ensures u.isDisabled.None? ==> r.isDisabled == current.isDisabled
    ensures u.lastRestart.Some? ==> r.lastRestart == u.lastRestart
    ensures u.lastRestart.None? ==> r.lastRestart == current.lastRestart
    ensures r.uptime == current.uptime
  {
    Status(
      u.status.GetOr(current.status),
      if u.lastActive.Some? then u.lastActive else current.lastActive,
      u.commands.GetOr(current.commands),
      u.servers.GetOr(current.servers),
      current.uptime,
      u.isDisabled.GetOr(current.isDisabled),
      if u.lastRestart.Some? then u.lastRestart else current.lastRestart)
  }

  /** Two updates in a row: the later one's fields win, the earlier one's others stay. */
  function Then(first: Update, second: Update): Update {
    Update(
      if second.status.Some? then second.status else first.status,
      if second.lastActive.Some? then second.lastActive else first.lastActive,
      if second.commands.Some? then second.commands else first.commands,
      if second.servers.Some? then second.servers else first.servers,
      if second.isDisabled.Some? then second.isDisabled else first.isDisabled,
      if second.lastRestart.Some? then second.lastRestart else first.lastRestart)
  }

  /** Merging two updates one after the other is merging their combination once. */
  lemma MergeThen(s: Status, first: Update, second: Update)
    ensures Merge(Merge(s, first), second) == Merge(s, Then(first, second))
  {
  }

  /** Applying the same update twice is applying it once. */
  lemma MergeIdempotent(s: Status, u: Update)
    ensures Merge(Merge(s, u), u) == Merge(s, u)
  {
    MergeThen(s, u, u);
    assert Then(u, u) == u;
  }

  /** The record `getBotStatus` yields from the file as it is: a missing or unreadable file reads as the defaults. */
  function Current(file: Option<Status>, io: Io): Status {
    if file.Some? && io != ReadFails then file.value else DefaultStatus
  }

  function OnlineUpdate(serverCount: Option<int>, now: string): Update {
    Update(Some(Online), Some(now), None, Some(serverCount.GetOr(0)), None, Some(now))
  }

  function OfflineUpdate(now: string): Update {
    Update(Some(Offline), Some(now), None, None, None, None)
  }

  function DisabledUpdate(disabled: bool): Update {
    NoChange.(isDisabled := Some(disabled))
  }

  /** Going offline keeps the server count, the command count and the disabled flag. */
  lemma OfflineKeeps(s: Status, now: string)
    ensures var r := Merge(s, OfflineUpdate(now));
      r.status == Offline && r.servers == s.servers && r.commands == s.commands && r.isDisabled == s.isDisabled
  {
  }

  /** Disabling then enabling gives back the record with only the flag cleared. */
  lemma DisableThenEnable(s: Status)
    ensures Merge(Merge(s, DisabledUpdate(true)), DisabledUpdate(false)) == s.(isDisabled := false)
  {
  }

  class StatusStore {
    var file: Option<Status>

    constructor (file: Option<Status>)
      ensures this.file == file
    {
      this.file := file;
    }

    /**
     * `getBotStatus`: the stored record; a missing file is created with the defaults
     * (when the write works) and a failed read yields the defaults.
     */
    method GetBotStatus(io: Io) returns (s: Status)
      modifies this
      ensures s == Current(old(file), io)
      ensures file == if old(file).None? && io != WriteFails then Some(DefaultStatus) else old(file)
    {
      if file.None? {
        if io == WriteFails {
          return DefaultStatus;
        }
        file := Some(DefaultStatus);
        return DefaultStatus;
      }
      if io == ReadFails {
        return DefaultStatus;
      }
      s := file.value;
    }

    /**
     * `updateBotStatus`: the current record with the update's fields over it, written back
     * and returned; a failed write returns `null` (here `None`) and leaves the file.
     */
    method UpdateBotStatus(u: Update, io: Io) returns (r: Option<Status>)
      modifies this
      ensures io != WriteFails ==> r == Some(Merge(Current(old(file), io), u)) && file == r
      ensures io == WriteFails ==> r == None && file == old(file)
    {
      var current := GetBotStatus(io);
      var next := Merge(current, u);
      if io == WriteFails {
        return None;
      }
      file := Some(next);
      r := Some(next);
    }

    /** `markBotOnline`: online, with the server count (0 when not given) and both times set to now. */
    method MarkBotOnline(serverCount: Option<int>, now: string, io: Io) returns (r: Option<Status>)
      modifies this
      ensures io != WriteFails ==> r == Some(Merge(Current(old(file), io), OnlineUpdate(serverCount, now))) && file == r
      ensures io != WriteFails ==> r.value.status == Online && r.value.servers == serverCount.GetOr(0)
      ensures io == WriteFails ==> r == None && file == old(file)
    {
      r := UpdateBotStatus(OnlineUpdate(serverCount, now), io);
    }

    /** `markBotOffline`: offline, with the last-active time set to now. */
    method MarkBotOffline(now: string, io: Io) returns (r: Option<Status>)
      modifies this
      ensures io != WriteFails ==> r == Some(Merge(Current(old(file), io), OfflineUpdate(now))) && file == r
      ensures io == WriteFails ==> r == None && file == old(file)
    {
      r := UpdateBotStatus(OfflineUpdate(now), io);
    }

    /** `isBotDisabled`: the flag of the current record. */
    method IsBotDisabled(io: Io) returns (disabled: bool)
      modifies this
      ensures disabled == Current(old(file), io).isDisabled
      ensures file == if old(file).None? && io != WriteFails then Some(DefaultStatus) else old(file)
    {
      var s := GetBotStatus(io);
      disabled := s.isDisabled;
    }

    /** `disableBot`: only the flag changes, to true. */
    method DisableBot(io: Io) returns (r: Option<Status>)
      modifies this
      ensures io != WriteFails ==> r == Some(Current(old(file), io).(isDisabled := true)) && file == r
      ensures io == WriteFails ==> r == None && file == old(file)
    {
      r := UpdateBotStatus(DisabledUpdate(true), io);
    }

    /** `enableBot`: only the flag changes, to false. */
    method EnableBot(io: Io) returns (r: Option<Status>)
      modifies this
      ensures io != WriteFails ==> r == Some(Current(old(file), io).(isDisabled := false)) && file == r
      ensures io == WriteFails ==> r == None && file == old(file)
    {
      r := UpdateBotStatus(DisabledUpdate(false), io);
    }

    /**
     * `incrementCommandCounter`: the command count goes up by exactly one and the
     * last-active time becomes now; nothing else changes.
     */
    method IncrementCommandCounter(now: string, io: Io) returns (r: Option<Status>)
      modifies this
      ensures io != WriteFails ==>
        var before := Current(old(file), io);
        r == Some(before.(commands := before.commands + 1, lastActive := Some(now))) && file == r
      ensures io == WriteFails ==> r == None && file == old(file)
    {
      var status := GetBotStatus(io);
      r := UpdateBotStatus(NoChange.(commands := Some(status.commands + 1), lastActive := Some(now)), io);
    }
  }

  /**
   * A read that fails while updating is not harmless: the defaults, with the update
   * over them, replace the stored record, so a disabled bot that is marked offline on a
   * failed read comes back enabled with no commands counted.
   */
  lemma FailedReadResetsRecord(stored: Status, now: string)
    requires stored.isDisabled && stored.commands > 0
    ensures var r := Merge(Current(Some(stored), ReadFails), OfflineUpdate(now));
      !r.isDisabled && r.commands == 0
  {
  }
}
