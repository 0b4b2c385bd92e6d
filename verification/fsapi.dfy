/** The flowsheet user-interface API (watertap/ui/fsapi.py): exported model
    objects, the interface's registry of actions, the rule that a flowsheet
    must be built before any other action runs, and loading input values.

    The user's build, export and solve functions are not part of this model:
    what they return (or the error they raise) is given by an `Oracle`. */
module Fsapi {
  import opened Wrappers

  // ---------------------------------------------------------------------------
  // Exports
  // ---------------------------------------------------------------------------

  /** A built flowsheet model object. */
  datatype Obj = Obj(id: nat)

  /** An exported variable: its name, the exported value, its flags, and the
      value of the model variable behind it (`obj.value`). Units are taken to
      be the same on both sides. */
  datatype Export = Export(name: string, value: real, isInput: bool, isReadonly: bool, objValue: real)

  /** A flowsheet and its exported model objects, by key. */
  datatype FlowsheetExport = FlowsheetExport(obj: Option<Obj>, name: string, description: string,
                                             modelObjects: map<string, Export>)

  /** The ValueError `add` raises for more than one positional argument. */
  datatype AddError = TooManyPositional(count: nat)

  /** `FlowsheetExport.add(*args, data=None, **kwargs)`: the object is the one
      positional argument if given, else `data` if given, else the one parsed
      from the keyword arguments; it is stored under the fresh key `id` (a
      random uuid in the source) and returned. */
  function Add(fs: FlowsheetExport, args: seq<Export>, data: Option<Export>, kwargs: Export, id: string)
    : (r: Result<(FlowsheetExport, Export), AddError>)
    ensures r.Err? <==> |args| > 1
    ensures r.Ok? ==> r.value.1 == (if |args| == 1 then args[0] else data.GetOr(kwargs))
    ensures r.Ok? ==> r.value.0.modelObjects.Keys == fs.modelObjects.Keys + {id}
    ensures r.Ok? ==> r.value.0.modelObjects[id] == r.value.1
    ensures r.Ok? ==> forall k :: k in fs.modelObjects && k != id ==> r.value.0.modelObjects[k] == fs.modelObjects[k]
    ensures r.Ok? ==> r.value.0.obj == fs.obj
    ensures r.Ok? && id !in fs.modelObjects ==> |r.value.0.modelObjects| == |fs.modelObjects| + 1
  {
    if |args| > 1 then Err(TooManyPositional(|args|))
    else
      var obj := if |args| == 1 then args[0] else match data case None => kwargs case Some(d) => d;
      Ok((fs.(modelObjects := fs.modelObjects[id := obj]), obj))
  }

  /** `export_values`: copy each model variable's value into its export. */
  function ExportValues(fs: FlowsheetExport): (r: FlowsheetExport)
    ensures r.obj == fs.obj
    ensures r.modelObjects.Keys == fs.modelObjects.Keys
    ensures Synced(r)
    ensures forall k :: k in fs.modelObjects ==> r.modelObjects[k] == fs.modelObjects[k].(value := fs.modelObjects[k].objValue)
  {
    fs.(modelObjects := map k | k in fs.modelObjects :: fs.modelObjects[k].(value := fs.modelObjects[k].objValue))
  }

  /** Every export shows its model variable's value. */
  predicate Synced(fs: FlowsheetExport)
  {
    forall k :: k in fs.modelObjects ==> fs.modelObjects[k].value == fs.modelObjects[k].objValue
  }

  /** Set the model variables the keys name to new values. */
  function ApplyModelValues(fs: FlowsheetExport, vals: map<string, real>): (r: FlowsheetExport)
    ensures r.obj == fs.obj && r.modelObjects.Keys == fs.modelObjects.Keys
    ensures forall k :: k in fs.modelObjects ==>
              r.modelObjects[k] == fs.modelObjects[k].(objValue := if k in vals then vals[k] else fs.modelObjects[k].objValue)
  {
    fs.(modelObjects := map k | k in fs.modelObjects ::
          fs.modelObjects[k].(objValue := if k in vals then vals[k] else fs.modelObjects[k].objValue))
  }

  // ---------------------------------------------------------------------------
  // The interface and its actions
  // ---------------------------------------------------------------------------

  /** A user-supplied function. */
  datatype UserFunc = UserFunc(id: nat)

  /** The names of `Actions`; the export action is underscore-prefixed so
      that it cannot be run directly. */
  const BuildAction: string := "build"
  const SolveAction: string := "solve"
  const ExportAction: string := "_export"

  /** A FlowsheetInterface: the exports and the registered actions. */
  datatype Interface = Interface(fsExp: FlowsheetExport, actions: map<string, UserFunc>)

  /** A user function that raised: its message, and the state it had
      reached when it raised (changes made before the raise stay). */
  datatype Raised<T> = Raised(msg: string, reached: T)

  /** What the user's functions do when called: `build` returns the model
      object (or None); `export` leaves the exports it filled through `add`;
      any other action returns its result and the model variables' values
      afterwards. Each may raise instead, having made some of its changes. */
  datatype Oracle<R> = Oracle(onBuild: UserFunc -> Result<Option<Obj>, string>,
                              onExport: (UserFunc, Obj, FlowsheetExport) -> Result<map<string, Export>, Raised<map<string, Export>>>,
                              onRun: (UserFunc, Obj) -> Result<(R, map<string, real>), Raised<map<string, real>>>)

  datatype ActionError =
    | UnknownAction(name: string)      // KeyError from get_action
    | UnderscoreAction(name: string)   // ValueError from run_action
    | NoExportAction                   // KeyError in the build wrapper
    | NotBuilt                         // RuntimeError in the wrapper
    | UserError(msg: string)           // raised by a user function

  /** `add_action(name, f)`: register (or replace) the action. */
  function AddAction(fi: Interface, name: string, f: UserFunc): (r: Interface)
    ensures r.fsExp == fi.fsExp
    ensures r.actions.Keys == fi.actions.Keys + {name} && r.actions[name] == f
    ensures forall n :: n in fi.actions && n != name ==> r.actions[n] == fi.actions[n]
  {
    fi.(actions := fi.actions[name := f])
  }

  /** `get_action(name)`: KeyError when no such action was added. */
  function GetAction(fi: Interface, name: string): (r: Result<UserFunc, ActionError>)
    ensures r.Ok? <==> name in fi.actions
    ensures r.Ok? ==> r.value == fi.actions[name]
    ensures r.Err? ==> r.error == UnknownAction(name)
  {
    if name in fi.actions then Ok(fi.actions[name]) else Err(UnknownAction(name))
  }

  /** The wrapper of the export action, as the build wrapper calls it: it
      refuses to run without a model object, and otherwise hands the exports
      to the export function, which fills them in place; exports added before
      it raises stay. */
  function ExportWrapper<R>(fi: Interface, o: Oracle<R>): (r: (Interface, Result<(), ActionError>))
    requires ExportAction in fi.actions
    ensures fi.fsExp.obj.None? ==> r == (fi, Err(NotBuilt))
    ensures r.0.actions == fi.actions && r.0.fsExp.obj == fi.fsExp.obj
    ensures fi.fsExp.obj.Some? ==>
      var e := o.onExport(fi.actions[ExportAction], fi.fsExp.obj.value, fi.fsExp);
      && (r.1.Ok? <==> e.Ok?)
      && (e.Ok? ==> r.0.fsExp.modelObjects == e.value)
      && (e.Err? ==> r.1 == Err(UserError(e.error.msg)) && r.0.fsExp.modelObjects == e.error.reached)
  {
    match fi.fsExp.obj
    case None => (fi, Err(NotBuilt))
    case Some(obj) =>
      match o.onExport(fi.actions[ExportAction], obj, fi.fsExp)
      case Err(raised) => (fi.(fsExp := fi.fsExp.(modelObjects := raised.reached)), Err(UserError(raised.msg)))
      case Ok(exports) => (fi.(fsExp := fi.fsExp.(modelObjects := exports)), Ok(()))
  }

  /** The wrapper of the build action: store what the build function returns
      as the model object (before anything else can fail), require an export
      action, run it, then copy the model's values into the exports. */
  function BuildWrapper<R>(fi: Interface, o: Oracle<R>): (r: (Interface, Result<Option<R>, ActionError>))
    requires BuildAction in fi.actions
    ensures r.0.actions == fi.actions
    ensures o.onBuild(fi.actions[BuildAction]).Err? ==> r == (fi, Err(UserError(o.onBuild(fi.actions[BuildAction]).error)))
    ensures o.onBuild(fi.actions[BuildAction]).Ok? ==> r.0.fsExp.obj == o.onBuild(fi.actions[BuildAction]).value
    ensures o.onBuild(fi.actions[BuildAction]).Ok? && ExportAction !in fi.actions ==> r.1 == Err(NoExportAction)
    ensures r.1.Ok? ==> r.1.value.None? && ExportAction in fi.actions && r.0.fsExp.obj.Some? && Synced(r.0.fsExp)
    ensures r.1.Ok? <==>
      var b := o.onBuild(fi.actions[BuildAction]);
      b.Ok? && b.value.Some? && ExportAction in fi.actions
      && o.onExport(fi.actions[ExportAction], b.value.value, fi.fsExp.(obj := b.value)).Ok?
    ensures r.1.Ok? ==>
      var b := o.onBuild(fi.actions[BuildAction]);
      var ex := o.onExport(fi.actions[ExportAction], b.value.value, fi.fsExp.(obj := b.value)).value;
      && r.0.fsExp.modelObjects.Keys == ex.Keys
      && forall k :: k in ex ==> r.0.fsExp.modelObjects[k] == ex[k].(value := ex[k].objValue)
  {
    var f := fi.actions[BuildAction];
    match o.onBuild(f)
    case Err(m) => (fi, Err(UserError(m)))
    case Ok(obj) =>
      var withObj := fi.(fsExp := fi.fsExp.(obj := obj));
      if ExportAction !in withObj.actions then (withObj, Err(NoExportAction))
      else
        var (exported, res) := ExportWrapper(withObj, o);
        if res.Err? then (exported, Err(res.error))
        else (exported.(fsExp := ExportValues(exported.fsExp)), Ok(None))
  }

  /** The wrapper of any other action: refuse before a build, otherwise call
      the function on the model object, and after `solve` copy the model's
      values into the exports. Model values the function changed before
      raising stay changed, and the exports are then not synchronised. */
  function OtherWrapper<R>(fi: Interface, name: string, o: Oracle<R>): (r: (Interface, Result<Option<R>, ActionError>))
    requires name in fi.actions && name != BuildAction
    ensures r.0.actions == fi.actions && r.0.fsExp.obj == fi.fsExp.obj
    ensures fi.fsExp.obj.None? ==> r == (fi, Err(NotBuilt))
    ensures r.1.Ok? ==> fi.fsExp.obj.Some? && o.onRun(fi.actions[name], fi.fsExp.obj.value).Ok? && r.1.value == Some(o.onRun(fi.actions[name], fi.fsExp.obj.value).value.0)
    ensures r.1.Ok? && name == SolveAction ==> Synced(r.0.fsExp)
    ensures fi.fsExp.obj.Some? && o.onRun(fi.actions[name], fi.fsExp.obj.value).Err? ==>
      var raised := o.onRun(fi.actions[name], fi.fsExp.obj.value).error;
      && r.1 == Err(UserError(raised.msg))
      && r.0.fsExp.modelObjects.Keys == fi.fsExp.modelObjects.Keys
      && forall k :: k in fi.fsExp.modelObjects ==>
           && r.0.fsExp.modelObjects[k].value == fi.fsExp.modelObjects[k].value
           && r.0.fsExp.modelObjects[k].objValue == (if k in raised.reached then raised.reached[k] else fi.fsExp.modelObjects[k].objValue)
  {
    match fi.fsExp.obj
    case None => (fi, Err(NotBuilt))
    case Some(obj) =>
      match o.onRun(fi.actions[name], obj)
      case Err(raised) => (fi.(fsExp := ApplyModelValues(fi.fsExp, raised.reached)), Err(UserError(raised.msg)))
      case Ok((result, vals)) =>
        var after := ApplyModelValues(fi.fsExp, vals);
        var synced := if name == SolveAction then ExportValues(after) else after;
        (fi.(fsExp := synced), Ok(Some(result)))
  }

  /** Whether a name starts with an underscore. */
  predicate Private(name: string)
  {
    |name| > 0 && name[0] == '_'
  }

  /** `run_action(name)`: look the action up first (KeyError), then refuse an
      underscore-prefixed name (ValueError), then call its wrapper. The state
      is returned with the outcome: a wrapper that fails part-way keeps the
      changes made before the failure. */
  function RunAction<R>(fi: Interface, name: string, o: Oracle<R>): (r: (Interface, Result<Option<R>, ActionError>))
    ensures name !in fi.actions ==> r == (fi, Err(UnknownAction(name)))
    ensures name in fi.actions && Private(name) ==> r == (fi, Err(UnderscoreAction(name)))
    ensures name != BuildAction && fi.fsExp.obj.None? ==> r.0 == fi && r.1.Err?
    ensures r.0.actions == fi.actions
    ensures r.1.Ok? ==> r.0.fsExp.obj.Some?
  {
    if name !in fi.actions then (fi, Err(UnknownAction(name)))
    else if Private(name) then (fi, Err(UnderscoreAction(name)))
    else if name == BuildAction then BuildWrapper(fi, o)
    else OtherWrapper(fi, name, o)
  }

  /** After a successful build, no other action is refused for want of one. */
  lemma BuildEnablesActions<R>(fi: Interface, o: Oracle<R>, name: string)
    requires RunAction(fi, BuildAction, o).1.Ok?
    requires name in fi.actions && name != BuildAction && !Private(name)
    ensures RunAction(RunAction(fi, BuildAction, o).0, name, o).1 != Err(NotBuilt)
  {
  }

  /** `build()`: run the build action and swallow any error, which is only
      logged; the state keeps whatever the action did before failing. */
  function Build<R>(fi: Interface, o: Oracle<R>): (r: Interface)
    ensures r == RunAction(fi, BuildAction, o).0
    ensures r.actions == fi.actions
  {
    RunAction(fi, BuildAction, o).0
  }

  /** `solve()`: the solve action's result, or None when it raised. */
  function Solve<R>(fi: Interface, o: Oracle<R>): (r: (Interface, Option<R>))
    ensures r.1.None? <==> RunAction(fi, SolveAction, o).1.Err?
    ensures r.1.Some? ==> Synced(r.0.fsExp)
    ensures fi.fsExp.obj.None? ==> r == (fi, None)
  {
    var (after, res) := RunAction(fi, SolveAction, o);
    match res
    case Err(_) => (after, None)
    case Ok(v) => (after, v)
  }

  // ---------------------------------------------------------------------------
  // Construction
  // ---------------------------------------------------------------------------

  /** A constructor argument: absent or falsy, a value that is not callable,
      or a function. */
  datatype FuncArg = Falsy | NotCallable | Callable(f: UserFunc)

  datatype InitError = ArgRequired(arg: string) | ArgNotCallable(arg: string)

  /** The check of one `do_<name>` argument. */
  function CheckArg(arg: FuncArg, name: string): (r: Result<UserFunc, InitError>)
    ensures r.Ok? <==> arg.Callable?
    ensures arg.Falsy? ==> r == Err(ArgRequired(name))
    ensures arg.NotCallable? ==> r == Err(ArgNotCallable(name))
  {
    match arg
    case Falsy => Err(ArgRequired(name))
    case NotCallable => Err(ArgNotCallable(name))
    case Callable(f) => Ok(f)
  }

  /** `FlowsheetInterface(fs, do_build, do_export, do_solve)`: the arguments
      are checked in the order export, build, solve, and each is registered
      as its action. */
  function NewInterface(fs: FlowsheetExport, doBuild: FuncArg, doExport: FuncArg, doSolve: FuncArg)
    : (r: Result<Interface, InitError>)
    ensures r.Ok? <==> doBuild.Callable? && doExport.Callable? && doSolve.Callable?
    ensures !doExport.Callable? ==> r == Err(CheckArg(doExport, "export").error)
    ensures doExport.Callable? && !doBuild.Callable? ==> r == Err(CheckArg(doBuild, "build").error)
    ensures doExport.Callable? && doBuild.Callable? && !doSolve.Callable? ==> r == Err(CheckArg(doSolve, "solve").error)
    ensures r.Ok? ==> r.value.fsExp == fs
    ensures r.Ok? ==> r.value.actions == map[ExportAction := doExport.f, BuildAction := doBuild.f, SolveAction := doSolve.f]
  {
    var e :- CheckArg(doExport, "export");
    var b :- CheckArg(doBuild, "build");
    var s :- CheckArg(doSolve, "solve");
    Ok(AddAction(AddAction(AddAction(Interface(fs, map[]), ExportAction, e), BuildAction, b), SolveAction, s))
  }

  /** A new interface over an unbuilt flowsheet cannot solve, and cannot run
      its export action directly. */
  lemma NewInterfaceNeedsBuild<R>(fs: FlowsheetExport, b: UserFunc, e: UserFunc, s: UserFunc, o: Oracle<R>)
    requires fs.obj.None?
    ensures var fi := NewInterface(fs, Callable(b), Callable(e), Callable(s)).value;
      RunAction(fi, SolveAction, o) == (fi, Err(NotBuilt)) &&
      RunAction(fi, ExportAction, o) == (fi, Err(UnderscoreAction(ExportAction)))
  {
    var fi := NewInterface(fs, Callable(b), Callable(e), Callable(s)).value;
    assert SolveAction in fi.actions && !Private(SolveAction);
    assert ExportAction in fi.actions && Private(ExportAction);
  }

  // ---------------------------------------------------------------------------
  // load
  // ---------------------------------------------------------------------------

  /** A key of the loaded data with no export here, and the name the data
      gives it. */
  datatype MissingObject = MissingObject(key: string, name: string)

  /** The keys of a dictionary's items are distinct. */
  ghost predicate DistinctKeys(data: seq<(string, Export)>)
  {
    forall i, j :: 0 <= i < j < |data| ==> data[i].0 != data[j].0
  }

  /** Whether the export is one `load` writes. */
  predicate Writable(e: Export)
  {
    e.isInput && !e.isReadonly
  }

  /** An export after `load` writes `v` to it: its value and its model
      object's value both become `v`; nothing else changes. */
  function Loaded(e: Export, v: real): (r: Export)
    ensures r.value == v && r.objValue == v
    ensures r.name == e.name && r.isInput == e.isInput && r.isReadonly == e.isReadonly
  {
    e.(value := v, objValue := v)
  }

  /** The loop of `load` over the data's items, in order: an unknown key is
      collected, a known writable export takes the loaded value (both in the
      model and in the export), anything else is left alone. */
  function LoadItems(exports: map<string, Export>, data: seq<(string, Export)>)
    : (r: (map<string, Export>, seq<MissingObject>))
    requires DistinctKeys(data)
    ensures r.0.Keys == exports.Keys
    ensures forall m :: m in r.1 <==> exists i :: 0 <= i < |data| && data[i].0 !in exports && m == MissingObject(data[i].0, data[i].1.name)
    ensures |r.1| <= |data|
    decreases |data|
  {
    if |data| == 0 then (exports, [])
    else
      var (key, src) := data[|data| - 1];
      var init := data[..|data| - 1];
      assert DistinctKeys(init);
      var (before, missing) := LoadItems(exports, init);
      if key !in before then
        (before, missing + [MissingObject(key, src.name)])
      else if Writable(before[key]) then
        (before[key := Loaded(before[key], src.value)], missing)
      else (before, missing)
  }

  /** LoadItems leaves alone every export the data does not name. */
  lemma {:induction false} LoadItemsUntouched(exports: map<string, Export>, data: seq<(string, Export)>, k: string)
    requires DistinctKeys(data)
    requires k in exports && forall i :: 0 <= i < |data| ==> data[i].0 != k
    ensures LoadItems(exports, data).0[k] == exports[k]
    decreases |data|
  {
    if |data| > 0 {
      var init := data[..|data| - 1];
      assert DistinctKeys(init);
      assert data[|data| - 1].0 != k;
      LoadItemsUntouched(exports, init, k);
    }
  }

  /** The last item of the data changes at most its own export: a writable
      one takes the loaded value. */
  lemma LoadItemsStep(exports: map<string, Export>, data: seq<(string, Export)>)
    requires DistinctKeys(data) && |data| > 0
    ensures var n := |data| - 1;
      var key := data[n].0;
      var r := LoadItems(exports, data).0;
      var before := LoadItems(exports, data[..n]).0;
      && DistinctKeys(data[..n])
      && (forall k :: k != key && k in exports ==> r[k] == before[k])
      && (key in exports ==>
            r[key] == if Writable(exports[key]) then Loaded(exports[key], data[n].1.value) else exports[key])
  {
    var n := |data| - 1;
    var init := data[..n];
    assert DistinctKeys(init);
    if data[n].0 in exports {
      LoadItemsUntouched(exports, init, data[n].0);
    }
  }

  /** LoadItems leaves alone every export it may not write. */
  lemma {:induction false} LoadItemsReadonly(exports: map<string, Export>, data: seq<(string, Export)>, k: string)
    requires DistinctKeys(data)
    requires k in exports && !Writable(exports[k])
    ensures LoadItems(exports, data).0[k] == exports[k]
    decreases |data|
  {
    if |data| > 0 {
      LoadItemsStep(exports, data);
      LoadItemsReadonly(exports, data[..|data| - 1], k);
    }
  }

  /** A writable export the data names takes the loaded value. */
  lemma {:induction false} LoadItemsWritten(exports: map<string, Export>, data: seq<(string, Export)>, i: nat)
    requires DistinctKeys(data)
    requires i < |data| && data[i].0 in exports && Writable(exports[data[i].0])
    ensures LoadItems(exports, data).0[data[i].0] == Loaded(exports[data[i].0], data[i].1.value)
    decreases |data|
  {
    var n := |data| - 1;
    LoadItemsStep(exports, data);
    if i < n {
      assert data[..n][i] == data[i];
      assert data[i].0 != data[n].0;
      LoadItemsWritten(exports, data[..n], i);
    }
  }

  /** What LoadItems writes: a writable export named by the data takes the
      loaded value, and every other export is left alone. */
  lemma LoadItemsValues(exports: map<string, Export>, data: seq<(string, Export)>)
    requires DistinctKeys(data)
    ensures var r := LoadItems(exports, data).0;
      && (forall k :: k in exports && !Writable(exports[k]) ==> r[k] == exports[k])
      && (forall i :: 0 <= i < |data| && data[i].0 in exports && Writable(exports[data[i].0]) ==>
            r[data[i].0] == Loaded(exports[data[i].0], data[i].1.value))
      && (forall k :: k in exports && (forall i :: 0 <= i < |data| ==> data[i].0 != k) ==> r[k] == exports[k])
  {
    forall k | k in exports && !Writable(exports[k]) ensures LoadItems(exports, data).0[k] == exports[k] {
      LoadItemsReadonly(exports, data, k);
    }
    forall i | 0 <= i < |data| && data[i].0 in exports && Writable(exports[data[i].0])
      ensures LoadItems(exports, data).0[data[i].0] == Loaded(exports[data[i].0], data[i].1.value)
    {
      LoadItemsWritten(exports, data, i);
    }
    forall k | k in exports && (forall i :: 0 <= i < |data| ==> data[i].0 != k)
      ensures LoadItems(exports, data).0[k] == exports[k]
    {
      LoadItemsUntouched(exports, data, k);
    }
  }

  /** The error `load` raises: its message and its `.missing` list. */
  datatype MissingObjectError = MissingObjectError(message: string, missing: seq<MissingObject>)

  /** `load(data)`: every item is processed before the unknown keys, if any,
      are raised together. The writes made before the error stay. */
  function Load(fi: Interface, data: seq<(string, Export)>): (r: (Interface, Result<(), MissingObjectError>))
    requires DistinctKeys(data)
    ensures r.0.actions == fi.actions && r.0.fsExp.obj == fi.fsExp.obj
    ensures r.0.fsExp.modelObjects == LoadItems(fi.fsExp.modelObjects, data).0
    ensures r.1.Err? <==> exists i :: 0 <= i < |data| && data[i].0 !in fi.fsExp.modelObjects
    ensures r.1.Err? ==> r.1.error == NewMissingObjectError(LoadItems(fi.fsExp.modelObjects, data).1)
  {
    var (exports, missing) := LoadItems(fi.fsExp.modelObjects, data);
    var after := fi.(fsExp := fi.fsExp.(modelObjects := exports));
    if |missing| > 0 then
      assert missing[0] in missing;
      (after, Err(NewMissingObjectError(missing)))
    else
      assert forall i :: 0 <= i < |data| ==> data[i].0 in fi.fsExp.modelObjects by {
        forall i | 0 <= i < |data| ensures data[i].0 in fi.fsExp.modelObjects {
          assert MissingObject(data[i].0, data[i].1.name) !in missing;
        }
      }
      (after, Ok(()))
  }

  /** Loading the same data twice leaves the exports as loading it once. */
  lemma LoadIdempotent(fi: Interface, data: seq<(string, Export)>)
    requires DistinctKeys(data)
    ensures Load(Load(fi, data).0, data).0 == Load(fi, data).0
  {
    var orig := fi.fsExp.modelObjects;
    var once := LoadItems(orig, data).0;
    var twice := LoadItems(once, data).0;
    forall k | k in once ensures twice[k] == once[k] {
      if i :| 0 <= i < |data| && data[i].0 == k {
        if Writable(orig[k]) {
          LoadItemsWritten(orig, data, i);
          LoadItemsWritten(once, data, i);
        } else {
          LoadItemsReadonly(orig, data, k);
          LoadItemsReadonly(once, data, k);
        }
      } else {
        LoadItemsUntouched(orig, data, k);
        LoadItemsUntouched(once, data, k);
      }
    }
    assert twice == once;
  }

  // ---------------------------------------------------------------------------
  // MissingObjectError
  // ---------------------------------------------------------------------------

  /** The decimal digits of a natural number. */
  function NatToString(n: nat): (r: string)
    ensures |r| >= 1
    ensures forall i :: 0 <= i < |r| ==> '0' <= r[i] <= '9'
    decreases n
  {
    var d := [(('0' as int) + n % 10) as char];
    if n < 10 then d else NatToString(n / 10) + d
  }

  /** The number a string of decimal digits denotes. */
  function ParseNat(s: string): nat
    requires forall i :: 0 <= i < |s| ==> '0' <= s[i] <= '9'
  {
    if |s| == 0 then 0 else ParseNat(s[..|s| - 1]) * 10 + ((s[|s| - 1] as int) - ('0' as int))
  }

  /** The decimal rendering reads back as the same number. */
  lemma {:induction false} NatToStringRoundTrip(n: nat)
    ensures ParseNat(NatToString(n)) == n
    decreases n
  {
    var s := NatToString(n);
    if n >= 10 {
      NatToStringRoundTrip(n / 10);
      assert s[..|s| - 1] == NatToString(n / 10);
    }
  }

  /** The names joined with ", ". */
  function JoinNames(missing: seq<MissingObject>): (r: string)
    ensures |missing| == 1 ==> r == missing[0].name
  {
    if |missing| == 0 then ""
    else if |missing| == 1 then missing[0].name
    else JoinNames(missing[..|missing| - 1]) + ", " + missing[|missing| - 1].name
  }

  /** Joining two non-empty lists puts one separator between their joins. */
  lemma {:induction false} JoinNamesConcat(a: seq<MissingObject>, b: seq<MissingObject>)
    requires |a| > 0 && |b| > 0
    ensures JoinNames(a + b) == JoinNames(a) + ", " + JoinNames(b)
    decreases |b|
  {
    if |b| == 1 {
      assert (a + b)[..|a + b| - 1] == a;
    } else {
      var init := b[..|b| - 1];
      JoinNamesConcat(a, init);
      assert (a + b)[..|a + b| - 1] == a + init;
    }
  }

  /** "object" for one, "objects" for any other count. */
  function ObjectWord(n: nat): (r: string)
    ensures r == "object" <==> n == 1
    ensures r == "objects" <==> n != 1
  {
    "object" + (if n == 1 then "" else "s")
  }

  /** `MissingObjectError(missing)`: the message counts the objects and lists
      their names; `.missing` keeps the (key, name) pairs in order. */
  function NewMissingObjectError(missing: seq<MissingObject>): (r: MissingObjectError)
    ensures r.missing == missing
    ensures var head := NatToString(|missing|) + " " + ObjectWord(|missing|);
      |head| <= |r.message| && r.message[..|head|] == head
    ensures var tail := " not found in the model: " + JoinNames(missing);
      |tail| <= |r.message| && r.message[|r.message| - |tail|..] == tail
    ensures |r.message| == |NatToString(|missing|) + " " + ObjectWord(|missing|)| + |" not found in the model: " + JoinNames(missing)|
  {
    var head := NatToString(|missing|) + " " + ObjectWord(|missing|);
    var tail := " not found in the model: " + JoinNames(missing);
    var msg := head + tail;
    assert msg[..|head|] == head;
    assert msg[|msg| - |tail|..] == tail;
    MissingObjectError(msg, missing)
  }
}
