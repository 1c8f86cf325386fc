/**
 * The MSW synchroniser of `@astrostory/core`: which export of the MSW config
 * module is used, how it becomes a runtime configuration, and the global
 * state that keeps at most one mock server listening and skips
 * re-synchronising an unchanged configuration.
 */
module Msw {
  import opened Wrappers
  import opened Records
  import opened Values
  import Rules

  // ---------------------------------------------------------------------
  // From the config module to a runtime configuration
  // ---------------------------------------------------------------------

  /** `MswConfig` after normalisation; `options` and `listenOptions` are kept as given. */
  datatype MswConfig = MswConfig(enabled: Option<bool>, handlers: Option<seq<Value>>, options: Value, listenOptions: Value)

  const NamedExports: seq<string> := ["handlers", "options", "listenOptions", "enabled"]

  /** Some of the four named exports is present on the module. */
  predicate HasNamedExport(fields: seq<Field>)
  {
    exists k :: 0 <= k < |NamedExports| && HasKey(fields, NamedExports[k])
  }

  /**
   * `getMswModuleExport`: a module that is not a record is its own export;
   * a defined default export wins; otherwise, when any of the named exports
   * is present, those four are gathered into one object; otherwise there is
   * no export.
   */
  function MswModuleExport(m: Value): (r: Value)
    ensures !m.Obj? ==> r == m
    ensures m.Obj? && !Get(m.fields, "default").Undefined? ==> r == Get(m.fields, "default")
    ensures m.Obj? && Get(m.fields, "default").Undefined? ==>
      if HasNamedExport(m.fields) then
        && r.Obj? && Keys(r.fields) == NamedExports
        && Get(r.fields, "handlers") == Get(m.fields, "handlers") && Get(r.fields, "options") == Get(m.fields, "options")
        && Get(r.fields, "listenOptions") == Get(m.fields, "listenOptions") && Get(r.fields, "enabled") == Get(m.fields, "enabled")
      else r == Undefined
  {
    if !m.Obj? then m
    else if HasKey(m.fields, "default") && !Get(m.fields, "default").Undefined? then Get(m.fields, "default")
    else if HasKey(m.fields, "handlers") || HasKey(m.fields, "options") || HasKey(m.fields, "listenOptions") || HasKey(m.fields, "enabled") then
      assert HasKey(m.fields, NamedExports[0]) || HasKey(m.fields, NamedExports[1]) || HasKey(m.fields, NamedExports[2]) || HasKey(m.fields, NamedExports[3]);
      var r := Obj([
        Entry("handlers", Get(m.fields, "handlers")),
        Entry("options", Get(m.fields, "options")),
        Entry("listenOptions", Get(m.fields, "listenOptions")),
        Entry("enabled", Get(m.fields, "enabled"))]);
      NamedExportsRead(m.fields, r.fields);
      r
    else
      assert !HasKey(m.fields, NamedExports[0]) && !HasKey(m.fields, NamedExports[1]) && !HasKey(m.fields, NamedExports[2]) && !HasKey(m.fields, NamedExports[3]);
      Undefined
  }

  lemma NamedExportsRead(fields: seq<Field>, gathered: seq<Field>)
    requires gathered == [
        Entry("handlers", Get(fields, "handlers")),
        Entry("options", Get(fields, "options")),
        Entry("listenOptions", Get(fields, "listenOptions")),
        Entry("enabled", Get(fields, "enabled"))]
    ensures Keys(gathered) == NamedExports
    ensures Get(gathered, "handlers") == Get(fields, "handlers") && Get(gathered, "options") == Get(fields, "options")
    ensures Get(gathered, "listenOptions") == Get(fields, "listenOptions") && Get(gathered, "enabled") == Get(fields, "enabled")
  {
    var e0, e1, e2, e3 := gathered[0], gathered[1], gathered[2], gathered[3];
    assert gathered == [e0, e1, e2, e3];
    assert "options"[0] != "handlers"[0] && "listenOptions"[0] != "handlers"[0] && "enabled"[0] != "handlers"[0];
    assert "listenOptions"[0] != "options"[0] && "enabled"[0] != "options"[0] && "enabled"[0] != "listenOptions"[0];
    KeysOfFour(e0, e1, e2, e3);
    LookupsOfFour(e0, e1, e2, e3);
  }

  /** What a config factory (a function default export) returns for a mode; it may throw. */
  type Factory = (nat, Rules.Mode) -> Result<Value>

  /** `resolveMswModuleExportValue`: a function export is called with `{ mode }`, anything else is used as is. */
  function ExportValue(e: Value, mode: Rules.Mode, factory: Factory): Result<Value>
  {
    if e.Func? then factory(e.id, mode) else Ok(e)
  }

  const HandlersArrayError := "MSW config \"handlers\" must be an array."
  const EnabledBooleanError := "MSW config \"enabled\" must be a boolean."
  const ExportShapeError := "MSW config must export a handler array, a config object, or a function returning one of them."

  /**
   * `normalizeMswConfigObject`: `handlers`, when present, must be an array
   * and `enabled`, when present, a boolean; the two listen options are
   * carried over unchanged.
   */
  function NormalizeMswConfigObject(fields: seq<Field>): (r: Result<MswConfig>)
    ensures var h := Get(fields, "handlers"); var en := Get(fields, "enabled");
      && (r.Ok? <==> (h.Undefined? || h.Arr?) && (en.Undefined? || en.Bool?))
      && (!h.Undefined? && !h.Arr? ==> r == Err(Fail(HandlersArrayError)))
      && ((h.Undefined? || h.Arr?) && !en.Undefined? && !en.Bool? ==> r == Err(Fail(EnabledBooleanError)))
      && (r.Ok? ==>
            && (r.value.handlers.Some? <==> h.Arr?) && (h.Arr? ==> r.value.handlers.value == h.items)
            && (r.value.enabled.Some? <==> en.Bool?) && (en.Bool? ==> r.value.enabled.value == en.b)
            && r.value.options == Get(fields, "options") && r.value.listenOptions == Get(fields, "listenOptions"))
  {
    var h := Get(fields, "handlers");
    var en := Get(fields, "enabled");
    if !h.Undefined? && !h.Arr? then Err(Fail(HandlersArrayError))
    else if !en.Undefined? && !en.Bool? then Err(Fail(EnabledBooleanError))
    else
      Ok(MswConfig(
        if en.Bool? then Some(en.b) else None,
        if h.Arr? then Some(h.items) else None,
        Get(fields, "options"),
        Get(fields, "listenOptions")))
  }

  /**
   * `resolveMswRuntimeConfig`: no configuration for `null` or `undefined`,
   * a bare array of handlers for an array, the normalised object for a
   * record, and an error for anything else.
   */
  function ResolveMswRuntimeConfig(m: Value, mode: Rules.Mode, factory: Factory): (r: Result<Option<MswConfig>>)
    ensures match ExportValue(MswModuleExport(m), mode, factory)
      case Err(e) => r == Err(e)
      case Ok(v) =>
        && (!Defined(v) ==> r == Ok(None))
        && (v.Arr? ==> r == Ok(Some(MswConfig(None, Some(v.items), Undefined, Undefined))))
        && (Defined(v) && !v.Arr? && !v.Obj? ==> r == Err(Fail(ExportShapeError)))
        && (v.Obj? ==> r == match NormalizeMswConfigObject(v.fields)
                          case Err(e) => Err(e)
                          case Ok(c) => Ok(Some(c)))
  {
    match ExportValue(MswModuleExport(m), mode, factory)
    case Err(e) => Err(e)
    case Ok(v) =>
      if !Defined(v) then Ok(None)
      else if v.Arr? then Ok(Some(MswConfig(None, Some(v.items), Undefined, Undefined)))
      else if !v.Obj? then Err(Fail(ExportShapeError))
      else
        match NormalizeMswConfigObject(v.fields)
        case Err(e) => Err(e)
        case Ok(c) => Ok(Some(c))
  }

  // ---------------------------------------------------------------------
  // Servers
  // ---------------------------------------------------------------------

  /** A server from `setupServer(...handlers)`, listening with the given options. */
  datatype Server = Server(handlers: seq<Value>, listenOptions: Value)

  /**
   * The server `syncMswServer` leaves listening for a runtime configuration:
   * none without a configuration or when it is disabled; otherwise one with
   * the handlers (none by default), listening with `options`, or
   * `listenOptions` when `options` is `null` or `undefined`.
   */
  function ServerFor(config: Option<MswConfig>): (r: Option<Server>)
    ensures r.Some? <==> config.Some? && config.value.enabled != Some(false)
    ensures r.Some? ==> r.value.handlers == config.value.handlers.UnwrapOr([])
    ensures r.Some? && Defined(config.value.options) ==> r.value.listenOptions == config.value.options
    ensures r.Some? && !Defined(config.value.options) ==> r.value.listenOptions == config.value.listenOptions
  {
    if config.None? || config.value.enabled == Some(false) then None
    else
      var c := config.value;
      Some(Server(c.handlers.UnwrapOr([]), if Defined(c.options) then c.options else c.listenOptions))
  }

  /** A module whose default export is a handler array starts a server with exactly those handlers and no options. */
  lemma HandlerArrayStartsServer(handlers: seq<Value>, mode: Rules.Mode, factory: Factory)
    ensures var m := Obj([Entry("default", Arr(handlers))]);
      && ResolveMswRuntimeConfig(m, mode, factory).Ok?
      && ServerFor(ResolveMswRuntimeConfig(m, mode, factory).value) == Some(Server(handlers, Undefined))
  {
    var m := Obj([Entry("default", Arr(handlers))]);
    assert Get(m.fields, "default") == Arr(handlers);
  }

  /** Named exports with `enabled: false` start no server, whatever the handlers. */
  lemma DisabledNamedExportsStartNothing(handlers: seq<Value>, mode: Rules.Mode, factory: Factory)
    ensures var m := Obj([Entry("handlers", Arr(handlers)), Entry("enabled", Bool(false))]);
      ResolveMswRuntimeConfig(m, mode, factory).Ok? && ServerFor(ResolveMswRuntimeConfig(m, mode, factory).value).None?
  {
    var fields := [Entry("handlers", Arr(handlers)), Entry("enabled", Bool(false))];
    assert Get(fields, "default") == Undefined by {
      assert fields[1..][1..] == [];
    }
    assert Get(fields, "handlers") == Arr(handlers);
    assert Get(fields, "enabled") == Bool(false) by {
      assert fields[1..] == [Entry("enabled", Bool(false))];
      assert Lookup(fields[1..], "enabled") == Some(Bool(false));
    }
    assert HasKey(fields, NamedExports[0]);
  }

  /** A factory export decides the configuration per mode; its failure is the resolution's failure. */
  lemma FactoryDecides(id: nat, mode: Rules.Mode, factory: Factory)
    ensures var m := Obj([Entry("default", Func(id))]);
      factory(id, mode).Err? ==> ResolveMswRuntimeConfig(m, mode, factory) == Err(factory(id, mode).error)
    ensures var m := Obj([Entry("default", Func(id))]);
      factory(id, mode) == Ok(Undefined) ==> ResolveMswRuntimeConfig(m, mode, factory) == Ok(None)
  {
    var m := Obj([Entry("default", Func(id))]);
    assert Get(m.fields, "default") == Func(id);
  }

  // ---------------------------------------------------------------------
  // The global synchroniser state
  // ---------------------------------------------------------------------

  /** What `startMswServer` does when called, before any sync of its own. */
  datatype StartStep =
    | UpToDate      // the last successful sync was for this module and mode
    | AwaitPending  // a sync is in flight; wait for it, then `Resume`
    | Syncing       // a sync of this module and mode has begun; finish it with `Complete`
    | Rethrow(error: Error)  // the awaited sync rejected, and so does this call, with the same error

  /**
   * `MswState`, the process-wide state of the synchroniser. `started` and
   * `closed` record, in order, every server set up and every server closed,
   * which is what `Valid` speaks about.
   */
  /**
   * Every server started but the current one has been closed, in the order
   * they were started, so at most one is listening at any time.
   */
  ghost predicate OneListening(started: seq<Server>, closed: seq<Server>, server: Option<Server>)
  {
    && |closed| <= |started|
    && closed == started[..|closed|]
    && |started| - |closed| == (if server.Some? then 1 else 0)
    && (server.Some? ==> server.value == started[|started| - 1])
  }

  /** Closing the current server, if any, and then starting the next, if any, keeps one server at most listening. */
  lemma ListeningReplaced(started: seq<Server>, closed: seq<Server>, server: Option<Server>, next: Option<Server>)
    requires OneListening(started, closed, server)
    ensures OneListening(started + (if next.Some? then [next.value] else []),
                         closed + (if server.Some? then [server.value] else []), next)
  {
    var closed' := closed + (if server.Some? then [server.value] else []);
    var started' := started + (if next.Some? then [next.value] else []);
    assert |closed'| == |started|;
    assert closed' == started[..|closed'|];
    assert started'[..|closed'|] == started;
  }

  class MswState {
    var server: Option<Server>
    var lastConfigModule: Value
    var lastMode: Option<Rules.Mode>
    var pendingInitialization: bool
    ghost var started: seq<Server>
    ghost var closed: seq<Server>

    /**
     * Every server but the current one has been closed, in the order they
     * were set up, so at most one is listening at any time.
     */
    ghost predicate Valid()
      reads this
    {
      OneListening(started, closed, server)
    }

    /** `getMswState` on first use: no server, nothing synchronised, nothing pending. */
    constructor ()
      ensures Valid()
      ensures server == None && lastConfigModule == Undefined && lastMode == None && !pendingInitialization
      ensures started == [] && closed == []
    {
      server := None;
      lastConfigModule := Undefined;
      lastMode := None;
      pendingInitialization := false;
      started := [];
      closed := [];
    }

    /** `state.lastConfigModule === configModule && state.lastMode === mode`. */
    predicate IsCurrent(configModule: Value, mode: Rules.Mode)
      reads this
    {
      lastConfigModule == configModule && lastMode == Some(mode)
    }

    /**
     * The first part of `startMswServer`: return when the module and mode
     * are those of the last successful sync; wait when a sync is in flight;
     * otherwise mark a sync as pending.
     */
    method Start(configModule: Value, mode: Rules.Mode) returns (step: StartStep)
      modifies this
      ensures step == UpToDate <==> old(IsCurrent(configModule, mode))
      ensures step == AwaitPending <==> !old(IsCurrent(configModule, mode)) && old(pendingInitialization)
      ensures !step.Rethrow?
      ensures step == Syncing ==> pendingInitialization
      ensures step != Syncing ==> pendingInitialization == old(pendingInitialization)
      ensures server == old(server) && lastConfigModule == old(lastConfigModule) && lastMode == old(lastMode)
      ensures started == old(started) && closed == old(closed)
    {
      if IsCurrent(configModule, mode) {
        return UpToDate;
      }
      if pendingInitialization {
        return AwaitPending;
      }
      pendingInitialization := true;
      return Syncing;
    }

    /**
     * `startMswServer` after the awaited sync has settled, with `awaited`
     * its rejection if it rejected: a rejection is rethrown to this caller,
     * which starts nothing; otherwise the same check again, and otherwise a
     * sync of its own, whether or not another one has begun meanwhile.
     */
    method Resume(configModule: Value, mode: Rules.Mode, awaited: Option<Error>) returns (step: StartStep)
      modifies this
      ensures awaited.Some? ==> step == Rethrow(awaited.value)
      ensures awaited.None? ==> (step == UpToDate <==> old(IsCurrent(configModule, mode)))
      ensures awaited.None? ==> step == UpToDate || step == Syncing
      ensures step == Syncing ==> pendingInitialization
      ensures step != Syncing ==> pendingInitialization == old(pendingInitialization)
      ensures server == old(server) && lastConfigModule == old(lastConfigModule) && lastMode == old(lastMode)
      ensures started == old(started) && closed == old(closed)
    {
      if awaited.Some? {
        return Rethrow(awaited.value);
      }
      if IsCurrent(configModule, mode) {
        return UpToDate;
      }
      pendingInitialization := true;
      return Syncing;
    }

    /**
     * The server swap of `syncMswServer`: any listening server is closed,
     * then the one the configuration asks for, if any, is started.
     */
    method SwapServer(config: Option<MswConfig>)
      requires Valid()
      modifies this
      ensures Valid()
      ensures server == ServerFor(config)
      ensures closed == old(closed) + (if old(server).Some? then [old(server).value] else [])
      ensures started == old(started) + (if server.Some? then [server.value] else [])
      ensures lastConfigModule == old(lastConfigModule) && lastMode == old(lastMode)
      ensures pendingInitialization == old(pendingInitialization)
    {
      var next := ServerFor(config);
      ListeningReplaced(started, closed, server, next);
      if server.Some? {
        closed := closed + [server.value];
        server := None;
      }
      if next.Some? {
        started := started + [next.value];
        server := next;
      }
    }

    /**
     * `syncMswServer` and the rest of `startMswServer`: resolve the
     * configuration; on success swap the server and remember the module and
     * mode; on failure leave the server and the remembered sync alone.
     * Nothing is pending afterwards either way.
     */
    method Complete(configModule: Value, mode: Rules.Mode, factory: Factory) returns (r: Result<Option<MswConfig>>)
      requires Valid()
      modifies this
      ensures Valid()
      ensures r == ResolveMswRuntimeConfig(configModule, mode, factory)
      ensures !pendingInitialization
      ensures r.Ok? ==> server == ServerFor(r.value) && IsCurrent(configModule, mode)
      ensures r.Ok? ==> closed == old(closed) + (if old(server).Some? then [old(server).value] else [])
      ensures r.Ok? ==> started == old(started) + (if server.Some? then [server.value] else [])
      ensures r.Err? ==> server == old(server) && lastConfigModule == old(lastConfigModule) && lastMode == old(lastMode)
      ensures r.Err? ==> started == old(started) && closed == old(closed)
    {
      r := ResolveMswRuntimeConfig(configModule, mode, factory);
      if r.Err? {
        pendingInitialization := false;
        return;
      }
      SwapServer(r.value);
      lastConfigModule := configModule;
      lastMode := Some(mode);
      pendingInitialization := false;
    }
  }

  /**
   * Starting twice with the same module and mode: the second call does
   * nothing once the first has completed successfully.
   */
  method StartTwice(state: MswState, configModule: Value, mode: Rules.Mode, factory: Factory) returns (second: StartStep)
    requires state.Valid() && !state.pendingInitialization
    modifies state
    ensures state.Valid()
    ensures ResolveMswRuntimeConfig(configModule, mode, factory).Ok? ==> second == UpToDate
    ensures ResolveMswRuntimeConfig(configModule, mode, factory).Err? && !old(state.IsCurrent(configModule, mode)) ==> second == Syncing
  {
    var first := state.Start(configModule, mode);
    if first == Syncing {
      var _ := state.Complete(configModule, mode, factory);
    }
    second := state.Start(configModule, mode);
  }

  /**
   * Two overlapping starts of a module and mode not yet synchronised: the
   * first syncs, the second waits for it. When that sync rejects, the
   * second caller rejects with the same error and starts no sync of its
   * own; when it succeeds, the second caller finds the sync current.
   */
  method OverlappingStarts(state: MswState, configModule: Value, mode: Rules.Mode, factory: Factory)
    returns (first: StartStep, second: StartStep, resumed: StartStep)
    requires state.Valid() && !state.pendingInitialization && !state.IsCurrent(configModule, mode)
    modifies state
    ensures state.Valid() && !state.pendingInitialization
    ensures first == Syncing && second == AwaitPending
    ensures ResolveMswRuntimeConfig(configModule, mode, factory).Err? ==>
      resumed == Rethrow(ResolveMswRuntimeConfig(configModule, mode, factory).error)
      && state.started == old(state.started) && state.closed == old(state.closed)
    ensures ResolveMswRuntimeConfig(configModule, mode, factory).Ok? ==> resumed == UpToDate
  {
    first := state.Start(configModule, mode);
    second := state.Start(configModule, mode);
    var r := state.Complete(configModule, mode, factory);
    resumed := state.Resume(configModule, mode, if r.Err? then Some(r.error) else None);
  }
}
