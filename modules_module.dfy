/** `ModulesModule` (Bot.Core/Modules/ModulesModule.cs): the `module` commands
    that enable and disable bot modules per server and per channel, the saved
    tables that remember those choices, and the re-enabling pass after loading.

    The module manager's own enabled sets belong to the command library; what
    `EnableChannel`, `EnableServer` and `DisableServer` return is a parameter. */
module Modules {
  import opened Wrappers
  import Text

  /** The flags of `ModuleFilter`; a filter is the set of flags it carries, so
      `ModuleFilter.None` is the empty set. */
  datatype FilterFlag = ServerWhitelist | ChannelWhitelist | AlwaysAllowPrivate

  datatype ModuleInfo = ModuleInfo(id: string, filter: set<FilterFlag>)

  /** `GetModule`: the query is lower-cased and the first module with exactly
      that id is returned. */
  function GetModule(modules: seq<ModuleInfo>, query: string): (r: Option<ModuleInfo>)
    ensures r.Some? ==> r.value.id == Text.Lower(query)
    ensures r.Some? ==> exists i :: 0 <= i < |modules| && modules[i] == r.value &&
                          forall j :: 0 <= j < i ==> modules[j].id != Text.Lower(query)
    ensures r.None? <==> forall i :: 0 <= i < |modules| ==> modules[i].id != Text.Lower(query)
  {
    var id := Text.Lower(query);
    var i := FirstIndex(modules, (m: ModuleInfo) => m.id == id);
    if i.Some? then Some(modules[i.value]) else None
  }

  /** Queries differing only in letter case find the same module. */
  lemma GetModuleIgnoresCase(modules: seq<ModuleInfo>, a: string, b: string)
    requires Text.Lower(a) == Text.Lower(b)
    ensures GetModule(modules, a) == GetModule(modules, b)
  {
  }

  /** A filter of `None` or exactly `AlwaysAllowPrivate`: the module is global. */
  predicate IsGlobal(filter: set<FilterFlag>)
    ensures IsGlobal(filter) ==> ServerWhitelist !in filter && ChannelWhitelist !in filter
  {
    filter == {} || filter == {AlwaysAllowPrivate}
  }

  /** A filter carrying neither whitelist flag is global. */
  lemma WithoutWhitelistIsGlobal(filter: set<FilterFlag>)
    ensures ServerWhitelist !in filter && ChannelWhitelist !in filter ==> IsGlobal(filter)
  {
    if ServerWhitelist !in filter && ChannelWhitelist !in filter && filter != {} {
      forall f | f in filter ensures f == AlwaysAllowPrivate {
      }
      var f :| f in filter;
      assert filter == {AlwaysAllowPrivate};
    }
  }

  datatype Lookup = Found(info: ModuleInfo) | UnknownModule | GlobalModule

  /** `VerifyFindModule`. */
  function VerifyFindModule(modules: seq<ModuleInfo>, query: string): (r: Lookup)
    ensures r == UnknownModule <==> forall i :: 0 <= i < |modules| ==> modules[i].id != Text.Lower(query)
    ensures r.Found? ==> r.info in modules && r.info.id == Text.Lower(query)
    ensures r.Found? ==> ServerWhitelist in r.info.filter || ChannelWhitelist in r.info.filter
    ensures r == GlobalModule ==> exists i :: 0 <= i < |modules| && modules[i].id == Text.Lower(query) &&
                                               IsGlobal(modules[i].filter)
  {
    match GetModule(modules, query)
    case None => UnknownModule
    case Some(m) =>
      WithoutWhitelistIsGlobal(m.filter);
      if IsGlobal(m.filter) then GlobalModule
      else
        Found(m)
  }

  /** The table after `AddModuleToSave(moduleId, id)`. */
  function WithModule(saves: map<nat, set<string>>, moduleId: string, id: nat): (r: map<nat, set<string>>)
    ensures r.Keys == saves.Keys + {id}
    ensures moduleId in r[id]
    ensures id in saves ==> r[id] == saves[id] + {moduleId}
    ensures id !in saves ==> r[id] == {moduleId}
    ensures forall k :: k in saves && k != id ==> r[k] == saves[k]
  {
    if id in saves then saves[id := saves[id] + {moduleId}] else saves[id := {moduleId}]
  }

  /** The table after `DeleteModuleFromSave(moduleId, id)`: nothing happens for an
      absent id, and an id whose set becomes empty is kept. */
  function WithoutModule(saves: map<nat, set<string>>, moduleId: string, id: nat): (r: map<nat, set<string>>)
    ensures r.Keys == saves.Keys
    ensures id in saves ==> r[id] == saves[id] - {moduleId}
    ensures forall k :: k in saves && k != id ==> r[k] == saves[k]
  {
    if id in saves then saves[id := saves[id] - {moduleId}] else saves
  }

  /** Adding twice is adding once (the entries are hash sets). */
  lemma AddModuleIdempotent(saves: map<nat, set<string>>, moduleId: string, id: nat)
    ensures WithModule(WithModule(saves, moduleId, id), moduleId, id) == WithModule(saves, moduleId, id)
  {
    var once := WithModule(saves, moduleId, id);
    var twice := WithModule(once, moduleId, id);
    assert once[id] + {moduleId} == once[id];
    assert forall k :: k in twice ==> twice[k] == once[k];
  }

  /** Removing a module that was just added to a new id leaves that id with an
      empty set rather than removing it. */
  lemma AddThenDeleteKeepsEmptyEntry(saves: map<nat, set<string>>, moduleId: string, id: nat)
    requires id !in saves
    ensures WithoutModule(WithModule(saves, moduleId, id), moduleId, id) == saves[id := {}]
  {
    var r := WithoutModule(WithModule(saves, moduleId, id), moduleId, id);
    assert r[id] == {};
    assert forall k :: k in r ==> r[k] == saves[id := {}][k];
  }

  /** Removing an absent module from an id that lists other modules is a no-op. */
  lemma DeleteAbsentModule(saves: map<nat, set<string>>, moduleId: string, id: nat)
    requires id in saves ==> moduleId !in saves[id]
    ensures WithoutModule(saves, moduleId, id) == saves
  {
    if id in saves {
      var r := WithoutModule(saves, moduleId, id);
      assert r[id] == saves[id];
      assert forall k :: k in r ==> r[k] == saves[k];
    }
  }

  /** One saved table (`Dictionary<ulong, HashSet<string>>`), updated in place. */
  class SaveTable {
    var entries: map<nat, set<string>>

    constructor ()
      ensures entries == map[]
    {
      entries := map[];
    }

    method AddModuleToSave(moduleId: string, id: nat)
      modifies this
      ensures entries == WithModule(old(entries), moduleId, id)
    {
      if id in entries {
        entries := entries[id := entries[id] + {moduleId}];
      } else {
        entries := entries[id := {moduleId}];
      }
    }

    method DeleteModuleFromSave(moduleId: string, id: nat)
      modifies this
      ensures entries == WithoutModule(old(entries), moduleId, id)
    {
      if id in entries {
        entries := entries[id := entries[id] - {moduleId}];
      }
    }
  }

  /** What a `module` command replies. */
  datatype Reply =
    | Unknown
    | Global
    | NoChannelSupport
    | NoServerSupport
    | AlreadyEnabled(moduleId: string)
    | NotEnabled(moduleId: string)
    | EnabledNow(moduleId: string)
    | DisabledNow(moduleId: string)

  /** The reply to a lookup that did not find a module that can be toggled. */
  function LookupReply(l: Lookup): Reply
    requires !l.Found?
  {
    if l == UnknownModule then Unknown else Global
  }

  /** Whether `OnDataLoad` re-enables the saved name under the given flag: the
      name must resolve to a module carrying that flag. */
  predicate ReEnables(modules: seq<ModuleInfo>, name: string, flag: FilterFlag)
    ensures ReEnables(modules, name, flag) <==>
              exists i :: 0 <= i < |modules| && modules[i].id == Text.Lower(name) && flag in modules[i].filter &&
                          forall j :: 0 <= j < i ==> modules[j].id != Text.Lower(name)
  {
    var m := GetModule(modules, name);
    m.Some? && flag in m.value.filter
  }

  /** What a call on the module manager's set of channels a module is enabled
      on leaves behind, and what it returns. The manager belongs to the command
      library; this is the behaviour the commands rely on. */
  datatype ChannelCall = ChannelCall(enabled: set<nat>, returned: bool)

  /** `ModuleManager.EnableChannel`: the channel is added; true when it was not
      there before. */
  function EnableChannelCall(enabled: set<nat>, channelId: nat): (r: ChannelCall)
    ensures channelId in r.enabled && r.enabled - {channelId} == enabled - {channelId}
    ensures r.returned <==> channelId !in enabled
  {
    ChannelCall(enabled + {channelId}, channelId !in enabled)
  }

  /** `ModuleManager.DisableChannel`: the channel is removed; true when it was
      there before. */
  function DisableChannelCall(enabled: set<nat>, channelId: nat): (r: ChannelCall)
    ensures channelId !in r.enabled && r.enabled + {channelId} == enabled + {channelId}
    ensures r.returned <==> channelId in enabled
  {
    ChannelCall(enabled - {channelId}, channelId in enabled)
  }

  /** `module channel disable` as written acts on what `EnableChannel` returns,
      which is true exactly when the module was NOT enabled on the channel, and
      leaves the module enabled there: the command reports "disabled" for a
      module that was off and is now on, and "not enabled" for one that is on. */
  lemma ChannelDisableAsWrittenInverts(enabled: set<nat>, channelId: nat)
    ensures EnableChannelCall(enabled, channelId).returned <==> channelId !in enabled
    ensures channelId in EnableChannelCall(enabled, channelId).enabled
    ensures DisableChannelCall(enabled, channelId).returned != EnableChannelCall(enabled, channelId).returned
  {
  }

  /** The concrete case: a module enabled on channel 7 is reported as not
      enabled and stays enabled; the intended call disables it. */
  lemma ChannelDisableCounterexample()
    ensures !EnableChannelCall({7}, 7).returned && 7 in EnableChannelCall({7}, 7).enabled
    ensures DisableChannelCall({7}, 7).returned && DisableChannelCall({7}, 7).enabled == {}
  {
  }

  class ModulesModule {
    /** The module service's modules, in registration order. */
    const modules: seq<ModuleInfo>
    const serverSaves: SaveTable
    const channelSaves: SaveTable

    constructor (modules: seq<ModuleInfo>)
      ensures this.modules == modules
      ensures fresh(serverSaves) && fresh(channelSaves) && serverSaves != channelSaves
      ensures serverSaves.entries == map[] && channelSaves.entries == map[]
    {
      this.modules := modules;
      serverSaves := new SaveTable();
      channelSaves := new SaveTable();
    }

    /** `module channel enable`: `enableChannel` is what `EnableChannel` returns. */
    method ChannelEnable(query: string, channelId: nat, enableChannel: bool) returns (reply: Reply)
      modifies channelSaves
      ensures var l := VerifyFindModule(modules, query);
              reply == if !l.Found? then LookupReply(l)
                       else if ChannelWhitelist !in l.info.filter then NoChannelSupport
                       else if !enableChannel then AlreadyEnabled(l.info.id)
                       else EnabledNow(l.info.id)
      ensures channelSaves.entries ==
                if reply.EnabledNow? then WithModule(old(channelSaves.entries), reply.moduleId, channelId)
                else old(channelSaves.entries)
    {
      var l := VerifyFindModule(modules, query);
      if !l.Found? {
        return LookupReply(l);
      }
      if ChannelWhitelist !in l.info.filter {
        return NoChannelSupport;
      }
      if !enableChannel {
        return AlreadyEnabled(l.info.id);
      }
      channelSaves.AddModuleToSave(l.info.id, channelId);
      return EnabledNow(l.info.id);
    }

    /** `module channel disable` as written: it calls `EnableChannel` on the
        set `enabled` of channels the found module is enabled on, and deletes
        the save only when that call returns true. The module therefore
        reports "not enabled" exactly when it IS enabled on the channel, and
        ends up enabled there whatever it was before. */
    method ChannelDisable(query: string, channelId: nat, enabled: set<nat>) returns (reply: Reply, enabledAfter: set<nat>)
      modifies channelSaves
      ensures var l := VerifyFindModule(modules, query);
              reply == if !l.Found? then LookupReply(l)
                       else if ChannelWhitelist !in l.info.filter then NoChannelSupport
                       else if channelId in enabled then NotEnabled(l.info.id)
                       else DisabledNow(l.info.id)
      ensures reply.NotEnabled? || reply.DisabledNow? ==> channelId in enabledAfter && enabledAfter - {channelId} == enabled - {channelId}
      ensures !(reply.NotEnabled? || reply.DisabledNow?) ==> enabledAfter == enabled
      ensures channelSaves.entries ==
                if reply.DisabledNow? then WithoutModule(old(channelSaves.entries), reply.moduleId, channelId)
                else old(channelSaves.entries)
    {
      enabledAfter := enabled;
      var l := VerifyFindModule(modules, query);
      if !l.Found? {
        return LookupReply(l), enabledAfter;
      }
      if ChannelWhitelist !in l.info.filter {
        return NoChannelSupport, enabledAfter;
      }
      var call := EnableChannelCall(enabled, channelId);
      enabledAfter := call.enabled;
      if !call.returned {
        return NotEnabled(l.info.id), enabledAfter;
      }
      channelSaves.DeleteModuleFromSave(l.info.id, channelId);
      reply := DisabledNow(l.info.id);
    }

    /** `module channel disable` as intended: it calls `DisableChannel` on the
        set `enabled` and deletes the save when that returns true, that is,
        exactly when the module was enabled on the channel; afterwards it is
        not enabled there. */
    method ChannelDisableIntended(query: string, channelId: nat, enabled: set<nat>) returns (reply: Reply, enabledAfter: set<nat>)
      modifies channelSaves
      ensures var l := VerifyFindModule(modules, query);
              reply == if !l.Found? then LookupReply(l)
                       else if ChannelWhitelist !in l.info.filter then NoChannelSupport
                       else if channelId !in enabled then NotEnabled(l.info.id)
                       else DisabledNow(l.info.id)
      ensures reply.NotEnabled? || reply.DisabledNow? ==> channelId !in enabledAfter && enabledAfter + {channelId} == enabled + {channelId}
      ensures !(reply.NotEnabled? || reply.DisabledNow?) ==> enabledAfter == enabled
      ensures channelSaves.entries ==
                if reply.DisabledNow? then WithoutModule(old(channelSaves.entries), reply.moduleId, channelId)
                else old(channelSaves.entries)
    {
      enabledAfter := enabled;
      var l := VerifyFindModule(modules, query);
      if !l.Found? {
        return LookupReply(l), enabledAfter;
      }
      if ChannelWhitelist !in l.info.filter {
        return NoChannelSupport, enabledAfter;
      }
      var call := DisableChannelCall(enabled, channelId);
      enabledAfter := call.enabled;
      if !call.returned {
        return NotEnabled(l.info.id), enabledAfter;
      }
      channelSaves.DeleteModuleFromSave(l.info.id, channelId);
      reply := DisabledNow(l.info.id);
    }

    /** `module server enable`: `enableServer` is what `EnableServer` returns. */
    method ServerEnable(query: string, serverId: nat, enableServer: bool) returns (reply: Reply)
      modifies serverSaves
      ensures var l := VerifyFindModule(modules, query);
              reply == if !l.Found? then LookupReply(l)
                       else if ServerWhitelist !in l.info.filter then NoServerSupport
                       else if !enableServer then AlreadyEnabled(l.info.id)
                       else EnabledNow(l.info.id)
      ensures serverSaves.entries ==
                if reply.EnabledNow? then WithModule(old(serverSaves.entries), reply.moduleId, serverId)
                else old(serverSaves.entries)
    {
      var l := VerifyFindModule(modules, query);
      if !l.Found? {
        return LookupReply(l);
      }
      if ServerWhitelist !in l.info.filter {
        return NoServerSupport;
      }
      if !enableServer {
        return AlreadyEnabled(l.info.id);
      }
      serverSaves.AddModuleToSave(l.info.id, serverId);
      return EnabledNow(l.info.id);
    }

    /** `module server disable`: `disableServer` is what `DisableServer` returns. */
    method ServerDisable(query: string, serverId: nat, disableServer: bool) returns (reply: Reply)
      modifies serverSaves
      ensures var l := VerifyFindModule(modules, query);
              reply == if !l.Found? then LookupReply(l)
                       else if ServerWhitelist !in l.info.filter then NoServerSupport
                       else if !disableServer then NotEnabled(l.info.id)
                       else DisabledNow(l.info.id)
      ensures serverSaves.entries ==
                if reply.DisabledNow? then WithoutModule(old(serverSaves.entries), reply.moduleId, serverId)
                else old(serverSaves.entries)
    {
      var l := VerifyFindModule(modules, query);
      if !l.Found? {
        return LookupReply(l);
      }
      if ServerWhitelist !in l.info.filter {
        return NoServerSupport;
      }
      if !disableServer {
        return NotEnabled(l.info.id);
      }
      serverSaves.DeleteModuleFromSave(l.info.id, serverId);
      return DisabledNow(l.info.id);
    }

    /** One half of `OnDataLoad`: the (id, module) pairs of a saved table whose
        saved name resolves to a module carrying `flag`, each of which the
        source re-enables. */
    method ReEnableCalls(saves: map<nat, set<string>>, flag: FilterFlag) returns (calls: set<(nat, string)>)
      ensures forall id, m :: (id, m) in calls <==>
                id in saves && exists name :: name in saves[id] && ReEnables(modules, name, flag) && m == Text.Lower(name)
    {
      calls := {};
      var ids := saves.Keys;
      while ids != {}
        invariant ids <= saves.Keys
        invariant forall id, m :: (id, m) in calls <==>
                    id in saves && id !in ids &&
                    exists name :: name in saves[id] && ReEnables(modules, name, flag) && m == Text.Lower(name)
        decreases ids
      {
        var id :| id in ids;
        var names := saves[id];
        ghost var before := calls;
        while names != {}
          invariant names <= saves[id]
          invariant forall i, m :: (i, m) in calls <==>
                      (i, m) in before ||
                      (i == id && exists name :: name in saves[id] && name !in names &&
                                                 ReEnables(modules, name, flag) && m == Text.Lower(name))
          decreases names
        {
          var name :| name in names;
          var found := GetModule(modules, name);
          if found.Some? && flag in found.value.filter {
            calls := calls + {(id, found.value.id)};
          }
          names := names - {name};
        }
        ids := ids - {id};
      }
    }

    /** `OnDataLoad`: the servers and channels whose saved modules are enabled
        again. */
    method OnDataLoad() returns (serverCalls: set<(nat, string)>, channelCalls: set<(nat, string)>)
      ensures forall id, m :: (id, m) in serverCalls <==>
                id in serverSaves.entries &&
                exists name :: name in serverSaves.entries[id] && ReEnables(modules, name, ServerWhitelist) &&
                               m == Text.Lower(name)
      ensures forall id, m :: (id, m) in channelCalls <==>
                id in channelSaves.entries &&
                exists name :: name in channelSaves.entries[id] && ReEnables(modules, name, ChannelWhitelist) &&
                               m == Text.Lower(name)
    {
      serverCalls := ReEnableCalls(serverSaves.entries, ServerWhitelist);
      channelCalls := ReEnableCalls(channelSaves.entries, ChannelWhitelist);
    }
  }
}
