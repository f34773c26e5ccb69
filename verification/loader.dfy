/** Finding the Vulkan loader library: tried once, and kept open or closed for good. */
module Loaders {
  import opened Results

  /** A function address; 0 is null. */
  type Pointer = nat

  datatype Symbol =
    | GetInstanceProcAddr | GetDeviceProcAddr | EnumerateVersion | EnumerateExtensions | EnumerateLayers | MakeInstance

  /**
   * The machine the plugin runs on: which candidate libraries open, what each exports,
   * and what its instance look-up function returns for the null instance.
   */
  datatype Host = Host(opens: seq<bool>, exported: (nat, Symbol) -> Pointer, resolved: (nat, Symbol) -> Pointer)

  /** library is the open candidate; faulted tells that an address was called after its library was closed. */
  datatype LoaderState = LoaderState(
    attempted: bool, available: bool, library: Option<nat>,
    instanceProc: Pointer, deviceProc: Pointer, version: Pointer, extensions: Pointer, layers: Pointer, create: Pointer,
    attempts: nat, faulted: bool)

  const UNTRIED := LoaderState(false, false, None, 0, 0, 0, 0, 0, 0, 0, false)

  function FirstOpen(opens: seq<bool>): (i: Option<nat>)
    ensures i.Some? ==> i.value < |opens| && opens[i.value] && forall j :: 0 <= j < i.value ==> !opens[j]
    ensures i.None? ==> forall j :: 0 <= j < |opens| ==> !opens[j]
  {
    if opens == [] then None
    else
      match FirstOpen(opens[..|opens| - 1])
      case Some(i) => Some(i)
      case None => if opens[|opens| - 1] then Some(|opens| - 1) else None
  }

  /** A global function: by the look-up function if it knows it, else by export. */
  function Global(host: Host, i: nat, symbol: Symbol): Pointer {
    if host.resolved(i, symbol) != 0 then host.resolved(i, symbol) else host.exported(i, symbol)
  }

  predicate Offers(host: Host, i: nat, symbol: Symbol) {
    host.resolved(i, symbol) != 0 || host.exported(i, symbol) != 0
  }

  /** The look-up function's answer is taken whenever it has one; only then not the export. */
  predicate FoundAs(host: Host, i: nat, symbol: Symbol, found: Pointer) {
    && (host.resolved(i, symbol) != 0 ==> found == host.resolved(i, symbol))
    && (host.resolved(i, symbol) == 0 ==> found == host.exported(i, symbol))
  }

  function Tried(host: Host, i: nat): LoaderState {
    var version, extensions := Global(host, i, EnumerateVersion), Global(host, i, EnumerateExtensions);
    var layers, create := Global(host, i, EnumerateLayers), Global(host, i, MakeInstance);
    var available := create != 0 && extensions != 0 && layers != 0;
    LoaderState(true, available, if available then Some(i) else None,
                host.exported(i, GetInstanceProcAddr), Global(host, i, GetDeviceProcAddr),
                version, extensions, layers, create, 1, false)
  }

  function Ensured(st: LoaderState, host: Host): LoaderState {
    if st.attempted then st
    else
      match FirstOpen(host.opens)
      case None => st.(attempted := true, available := false, attempts := st.attempts + 1)
      case Some(i) =>
        if host.exported(i, GetInstanceProcAddr) == 0 then
          st.(attempted := true, available := false, attempts := st.attempts + 1)
        else Tried(host, i).(attempts := st.attempts + 1, faulted := st.faulted)
  }

  /** Before the attempt nothing is set; afterwards the library is open iff the loader is available. */
  predicate Decided(st: LoaderState) {
    && !st.faulted
    && (!st.attempted ==> st == UNTRIED)
    && (st.attempted ==> st.attempts == 1 && (st.library.Some? <==> st.available))
    && (st.available ==> st.instanceProc != 0 && st.create != 0 && st.extensions != 0 && st.layers != 0)
  }

  lemma EnsuredIsDecided(st: LoaderState, host: Host)
    requires Decided(st)
    ensures Decided(Ensured(st, host)) && Ensured(st, host).attempted
    ensures st.available ==> Ensured(st, host) == st
  {
  }

  /** Whatever the machine looks like later, the first attempt's answer stands. */
  lemma AnswerStands(st: LoaderState, first: Host, later: Host)
    ensures Ensured(Ensured(st, first), later) == Ensured(st, first)
  {
  }

  /**
   * The loader is available iff the first candidate that opens exports the look-up function
   * and has the three mandatory functions; later candidates are never tried.
   */
  lemma AvailableIff(host: Host)
    ensures Ensured(UNTRIED, host).available <==>
            exists i: nat :: i < |host.opens| && host.opens[i] && (forall j :: 0 <= j < i ==> !host.opens[j])
                   && host.exported(i, GetInstanceProcAddr) != 0
                   && Offers(host, i, MakeInstance)
                   && Offers(host, i, EnumerateExtensions) && Offers(host, i, EnumerateLayers)
  {
    var first := FirstOpen(host.opens);
    forall i: nat | i < |host.opens| && host.opens[i] && (forall j :: 0 <= j < i ==> !host.opens[j])
      ensures first == Some(i)
    {
      assert first.Some?;
      assert !(first.value < i) && !(i < first.value);
    }
  }

  /**
   * Once available, every address is that of its own function in the library left open, by the
   * look-up function before the export; the look-up function itself is an export.
   */
  lemma FunctionsAreTheirs(host: Host)
    requires Ensured(UNTRIED, host).available
    ensures var st := Ensured(UNTRIED, host);
      && st.library.Some? && st.library.value < |host.opens| && host.opens[st.library.value]
      && st.instanceProc == host.exported(st.library.value, GetInstanceProcAddr) != 0
      && FoundAs(host, st.library.value, GetDeviceProcAddr, st.deviceProc)
      && FoundAs(host, st.library.value, EnumerateVersion, st.version)
      && FoundAs(host, st.library.value, EnumerateExtensions, st.extensions)
      && FoundAs(host, st.library.value, EnumerateLayers, st.layers)
      && FoundAs(host, st.library.value, MakeInstance, st.create)
      && st.extensions != 0 && st.layers != 0 && st.create != 0
  {
  }

  /** Calling through an address that a closed library left behind. */
  function Called(st: LoaderState, pointer: Pointer): LoaderState {
    st.(faulted := st.faulted || (pointer != 0 && st.library.None?))
  }

  class Loader {
    var attempted: bool
    var available: bool
    var library: Option<nat>
    var instanceProc: Pointer
    var deviceProc: Pointer
    var version: Pointer
    var extensions: Pointer
    var layers: Pointer
    var create: Pointer
    var attempts: nat
    var faulted: bool

    function Now(): LoaderState
      reads this
    {
      LoaderState(attempted, available, library, instanceProc, deviceProc, version, extensions, layers, create,
                  attempts, faulted)
    }

    constructor ()
      ensures Now() == UNTRIED
    {
      attempted, available, library := false, false, None;
      instanceProc, deviceProc, version, extensions, layers, create := 0, 0, 0, 0, 0, 0;
      attempts, faulted := 0, false;
    }

    method Open(host: Host, candidate: nat) returns (ok: bool)
      requires candidate < |host.opens|
      modifies `library
      ensures ok == host.opens[candidate] && library == if ok then Some(candidate) else None
    {
      library := None;
      ok := host.opens[candidate];
      if ok {
        library := Some(candidate);
      }
    }

    method Load(host: Host, symbol: Symbol) returns (found: Pointer)
      ensures found == if library.None? then 0 else host.exported(library.value, symbol)
    {
      found := if library.None? then 0 else host.exported(library.value, symbol);
    }

    /** The look-up function's answer for the null instance; calling it without its library is a fault. */
    method CallInstanceProc(host: Host, symbol: Symbol) returns (found: Pointer)
      modifies `faulted
      ensures faulted == (old(faulted) || (instanceProc != 0 && library.None?))
      ensures library.Some? ==> found == host.resolved(library.value, symbol)
    {
      faulted := faulted || (instanceProc != 0 && library.None?);
      found := if library.None? then 0 else host.resolved(library.value, symbol);
    }

    /** After a fault the address found means nothing. */
    method LoadGlobalLocked(host: Host, symbol: Symbol) returns (found: Pointer)
      modifies `faulted
      ensures faulted == (old(faulted) || (instanceProc != 0 && library.None?))
      ensures library.Some? && instanceProc != 0 ==> FoundAs(host, library.value, symbol, found)
      ensures library.Some? && instanceProc == 0 ==> found == host.exported(library.value, symbol)
      ensures library.None? && instanceProc == 0 ==> found == 0
    {
      if instanceProc != 0 {
        found := CallInstanceProc(host, symbol);
        if found != 0 {
          return;
        }
      }
      found := Load(host, symbol);
    }

    /** The candidates in order, up to the first that opens. */
    method OpenFirst(host: Host)
      requires library.None?
      modifies `library
      ensures library == FirstOpen(host.opens)
    {
      var candidate := 0;
      while candidate < |host.opens|
        invariant candidate <= |host.opens| && library.None?
        invariant forall j :: 0 <= j < candidate ==> !host.opens[j]
      {
        var ok := Open(host, candidate);
        if ok {
          assert FirstOpen(host.opens).Some? && !(FirstOpen(host.opens).value < candidate);
          return;
        }
        candidate := candidate + 1;
      }
    }

    /** The functions found through the open library and its look-up function. */
    method LoadFunctions(host: Host)
      requires library.Some? && instanceProc != 0
      modifies this
      ensures library == old(library) && instanceProc == old(instanceProc) && faulted == old(faulted)
      ensures attempted == old(attempted) && attempts == old(attempts) && available == old(available)
      ensures FoundAs(host, library.value, GetDeviceProcAddr, deviceProc)
      ensures FoundAs(host, library.value, EnumerateVersion, version)
      ensures FoundAs(host, library.value, EnumerateExtensions, extensions)
      ensures FoundAs(host, library.value, EnumerateLayers, layers)
      ensures FoundAs(host, library.value, MakeInstance, create)
    {
      deviceProc := CallInstanceProc(host, GetDeviceProcAddr);
      if deviceProc == 0 {
        deviceProc := Load(host, GetDeviceProcAddr);
      }
      version := LoadGlobalLocked(host, EnumerateVersion);
      extensions := LoadGlobalLocked(host, EnumerateExtensions);
      layers := LoadGlobalLocked(host, EnumerateLayers);
      create := LoadGlobalLocked(host, MakeInstance);
    }

    method EnsureLoaderLocked(host: Host) returns (ok: bool)
      requires Decided(Now())
      modifies this
      ensures Now() == Ensured(old(Now()), host) && ok == available
    {
      if attempted {
        return available;
      }
      attempted, attempts := true, attempts + 1;
      OpenFirst(host);
      instanceProc := Load(host, GetInstanceProcAddr);
      if instanceProc == 0 {
        available, library := false, None;
        return false;
      }
      LoadFunctions(host);
      available := create != 0 && extensions != 0 && layers != 0;
      if !available {
        library := None;
      }
      ok := available;
    }
  }

  /** A failed attempt can leave the look-up address set although its library is closed. */
  lemma AddressOutlivesLibraryIff(host: Host)
    requires !Ensured(UNTRIED, host).available
    ensures var st := Ensured(UNTRIED, host);
      && st.library.None?
      && (Called(st, st.instanceProc).faulted <==>
            FirstOpen(host.opens).Some? && host.exported(FirstOpen(host.opens).value, GetInstanceProcAddr) != 0)
  {
  }
}

/** The lifecycle machine over the loader: why entry points that never check the loader are safe. */
module LoaderSafety {
  import opened Results
  import opened Lifecycle
  import opened Loaders

  datatype Plugin = Plugin(world: World, loader: LoaderState)

  const FRESH := Plugin(INITIAL_WORLD, UNTRIED)

  datatype Move = AskLoader(host: Host) | Api(request: Request, host: Host)

  /** The look-up addresses an entry point calls through to reach the driver. */
  function LookedUp(st: LoaderState, req: Request): LoaderState {
    match req
    case DoCreateInstance(_) => Called(st, st.create)
    case DoEnumeratePhysicalDevices(_, _, _) => Called(st, st.instanceProc)
    case DoQueryPhysicalDevice(_, _, _, _) => Called(st, st.instanceProc)
    case DoCreateDevice(_, _) => Called(st, st.instanceProc)
    case DoDestroyInstance(_, _) => Called(Called(st, st.deviceProc), st.instanceProc)
    case _ => Called(st, st.deviceProc)
  }

  /**
   * Instance creation asks for the loader; every other entry point goes straight to the driver once its handles
   * resolve.
   */
  function Advance(p: Plugin, move: Move): (int, Plugin) {
    match move
    case AskLoader(host) =>
      var loader := Ensured(p.loader, host);
      (if loader.available then 1 else 0, p.(loader := loader))
    case Api(req, host) =>
      if req.DoCreateInstance? && req.env.argsOk && req.env.decoded then
        var loader := Ensured(p.loader, host);
        if !loader.available then (ERROR_LOADER_UNAVAILABLE, p.(loader := loader))
        else (Step(p.world, req).result, Plugin(Step(p.world, req).world, LookedUp(loader, req)))
      else
        var after := Step(p.world, req);
        (after.result,
         Plugin(after.world, if after.world.trace == p.world.trace then p.loader else LookedUp(p.loader, req)))
  }

  function RunMoves(p: Plugin, moves: seq<Move>): Plugin {
    if moves == [] then p else Advance(RunMoves(p, moves[..|moves| - 1]), moves[|moves| - 1]).1
  }

  /**
   * The loader is asked for by instance creations whose arguments are good and readable, and by
   * no other entry point; unless it is refused for want of a loader, the answer is the step's.
   */
  lemma LoaderAskedIff(p: Plugin, req: Request, host: Host)
    ensures var asks := req.DoCreateInstance? && req.env.argsOk && req.env.decoded;
      var (result, after) := Advance(p, Api(req, host));
      && (after.loader.attempted <==> p.loader.attempted || asks)
      && (if asks && !Ensured(p.loader, host).available then
            result == ERROR_LOADER_UNAVAILABLE && after.world == p.world && after.loader == Ensured(p.loader, host)
          else Outcome(result, after.world) == Step(p.world, req))
  {
    hide Step;
  }

  /** Asking is answered with one or zero; and a driver call is one through a look-up address, good or stale. */
  lemma CallsGoThroughLookUps(p: Plugin, req: Request, host: Host)
    ensures Advance(p, AskLoader(host)) ==
            (if Ensured(p.loader, host).available then 1 else 0, Plugin(p.world, Ensured(p.loader, host)))
    ensures var after := Advance(p, Api(req, host)).1;
      p.loader.attempted && p.loader.library.None? && after.world.trace != p.world.trace
      && p.loader.instanceProc != 0 && p.loader.deviceProc != 0 && p.loader.create != 0 ==>
        after.loader.faulted
  {
    hide Step;
  }

  /** Records mean an open library. */
  ghost predicate Holds(p: Plugin) {
    && Decided(p.loader)
    && (p.world.reg.records != map[] ==> p.loader.attempted && p.loader.available && p.loader.library.Some?)
    && (p.world.trace != [] ==> p.loader.available)
  }

  /** With no record, no handle resolves, and nothing but instance creation reaches the driver. */
  lemma NothingResolvesWhenEmpty(w: World, req: Request)
    requires w.reg.records == map[]
    requires req.DoCreateInstance? ==> !req.env.argsOk || !req.env.decoded
    ensures Step(w, req).world == w
  {
  }

  lemma AdvanceHolds(p: Plugin, move: Move)
    requires Holds(p)
    ensures Holds(Advance(p, move).1)
    ensures p.loader.available ==> Advance(p, move).1.loader == p.loader
  {
    match move
    case AskLoader(host) => EnsuredIsDecided(p.loader, host);
    case Api(req, host) =>
      EnsuredIsDecided(p.loader, host);
      if p.world.reg.records == map[] && !(req.DoCreateInstance? && req.env.argsOk && req.env.decoded) {
        NothingResolvesWhenEmpty(p.world, req);
      }
  }

  /**
   * In every run: any record at all implies that the loader was tried, once, is available
   * and its library still open; and no address is ever called after its library closed.
   */
  lemma {:induction false} RecordsNeedOpenLibrary(moves: seq<Move>)
    ensures var p := RunMoves(FRESH, moves);
      && Holds(p) && !p.loader.faulted
      && (p.world.reg.records != map[] ==> p.loader.attempts == 1 && p.loader.available && p.loader.library.Some?)
    decreases |moves|
  {
    if moves != [] {
      var n := |moves| - 1;
      RecordsNeedOpenLibrary(moves[..n]);
      AdvanceHolds(RunMoves(FRESH, moves[..n]), moves[n]);
    }
  }

  /** A native call happens only while the library is open. */
  lemma CallsNeedOpenLibrary(moves: seq<Move>, move: Move)
    ensures var before := RunMoves(FRESH, moves);
      var after := Advance(before, move).1;
      after.world.trace != before.world.trace ==> after.loader.library.Some?
  {
    RecordsNeedOpenLibrary(moves);
    AdvanceHolds(RunMoves(FRESH, moves), move);
  }

  /** Until the loader is there, nothing has happened. */
  lemma {:induction false} NothingWithoutLoader(p: Plugin, moves: seq<Move>)
    requires Decided(p.loader) && p.loader.attempted && !p.loader.available && p.world == INITIAL_WORLD
    ensures RunMoves(p, moves) == p
    decreases |moves|
  {
    if moves != [] {
      NothingWithoutLoader(p, moves[..|moves| - 1]);
      match moves[|moves| - 1]
      case AskLoader(_) =>
      case Api(req, _) =>
        if !(req.DoCreateInstance? && req.env.argsOk && req.env.decoded) {
          NothingResolvesWhenEmpty(p.world, req);
        }
    }
  }

  lemma {:induction false} NothingBeforeLoader(moves: seq<Move>)
    ensures !RunMoves(FRESH, moves).loader.available ==> RunMoves(FRESH, moves).world == INITIAL_WORLD
    decreases |moves|
  {
    if moves != [] {
      var before := RunMoves(FRESH, moves[..|moves| - 1]);
      NothingBeforeLoader(moves[..|moves| - 1]);
      RecordsNeedOpenLibrary(moves[..|moves| - 1]);
      AdvanceHolds(before, moves[|moves| - 1]);
      match moves[|moves| - 1]
      case AskLoader(_) =>
      case Api(req, host) =>
        if before.world == INITIAL_WORLD && !(req.DoCreateInstance? && req.env.argsOk && req.env.decoded) {
          NothingResolvesWhenEmpty(before.world, req);
        }
    }
  }

  /** The answer for want of a loader: the arguments are good, and there is none to be had. */
  predicate Refused(p: Plugin, env: Env, host: Host) {
    env.argsOk && env.decoded && !Ensured(p.loader, host).available
  }

  /**
   * Once an instance creation is refused for want of a loader, in whatever run, the plugin
   * stays as it was at its start: nothing is ever recorded, no native call ever made, and
   * every later creation with good arguments is refused, whatever the machine is by then.
   */
  lemma RefusalIsFinal(moves: seq<Move>, env: Env, host: Host, later: seq<Move>, again: Env, now: Host)
    requires Refused(RunMoves(FRESH, moves), env, host)
    ensures var refused := Advance(RunMoves(FRESH, moves), Api(DoCreateInstance(env), host));
      && refused.0 == ERROR_LOADER_UNAVAILABLE
      && RunMoves(refused.1, later) == refused.1 && refused.1.world == INITIAL_WORLD
      && (Refused(RunMoves(refused.1, later), again, now) <==> again.argsOk && again.decoded)
  {
    var p := RunMoves(FRESH, moves);
    RecordsNeedOpenLibrary(moves);
    NothingBeforeLoader(moves);
    EnsuredIsDecided(p.loader, host);
    AnswerStands(p.loader, host, now);
    NothingWithoutLoader(Advance(p, Api(DoCreateInstance(env), host)).1, later);
  }
}
