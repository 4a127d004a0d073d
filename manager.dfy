/**
 * The view manager of src/ViewManager.php: template name, extension, search
 * paths, engine options, view data and helpers, and the render step that
 * pushes all of them into the active adapter.
 */
module Manager {
  import opened Wrappers
  import opened FileSystem
  import opened Values
  import opened Keys
  import opened Adapter
  import Extension
  import PathList
  import Loader

  /** The operation that names itself in an invalid-key error. */
  datatype Caller = FromSet | FromAddHelper

  /** The exceptions the manager raises. */
  datatype ViewError =
    | UndefinedAdapter
    | InvalidKey(caller: Caller, key: string)
    | DuplicateHelper(name: string)
    | InvalidTemplate(file: string, paths: seq<string>)
    | RenderFailure(message: string)

  /**
   * The index of the first pair whose key breaks the key rule, `|es|` when
   * every key keeps it: `mergeData` stores the pairs before it and stops there.
   */
  function FirstInvalidKey(es: Entries): (j: nat)
    ensures j <= |es|
    ensures forall i :: 0 <= i < j ==> IsValidKey(es[i].0)
    ensures j < |es| ==> !IsValidKey(es[j].0)
    decreases |es|
  {
    if es == [] then 0
    else if !IsValidKey(es[0].0) then 0
    else 1 + FirstInvalidKey(es[1..])
  }

  /** How the manager reports an adapter's render outcome. */
  function WrapRender(outcome: Result<string, string>): (r: Result<string, ViewError>)
    ensures r.Success? <==> outcome.Success?
    ensures outcome.Success? ==> r.value == outcome.value
    ensures outcome.Failure? ==> r.error == RenderFailure(outcome.error)
  {
    match outcome
    case Success(out) => Success(out)
    case Failure(message) => Failure(RenderFailure(message))
  }

  class ViewManager {
    var adapter: Option<ViewAdapter>
    var template: Option<string>
    var extension: Option<string>
    var paths: seq<string>
    var options: map<string, Value>
    var data: map<string, Value>
    var helpers: map<string, ViewHelper>

    /**
     * The invariants every public operation keeps: no repeated path, only
     * valid data keys, helpers registered under their own valid names.
     */
    ghost predicate Valid()
      reads this
    {
      && PathList.NoDuplicates(paths)
      && (forall k :: k in data ==> IsValidKey(k))
      && (forall k :: k in helpers ==> IsValidKey(k) && helpers[k].name == k)
    }

    constructor ()
      ensures Valid()
      ensures adapter == None && template == None && extension == None && paths == []
      ensures options == map[] && data == map[] && helpers == map[]
    {
      adapter, template, extension, paths := None, None, None, [];
      options, data, helpers := map[], map[], map[];
    }

    // ---------------------------------------------------------------------
    // Adapter and template

    method SetAdapter(a: ViewAdapter)
      modifies this`adapter
      ensures adapter == Some(a)
    {
      adapter := Some(a);
    }

    /** `getAdapter()`: the adapter set last, or an undefined-adapter error. */
    method GetAdapter() returns (r: Result<ViewAdapter, ViewError>)
      ensures adapter.None? <==> r == Failure(UndefinedAdapter)
      ensures adapter.Some? ==> r == Success(adapter.value)
    {
      if adapter.None? {
        return Failure(UndefinedAdapter);
      }
      return Success(adapter.value);
    }

    method SetTemplate(t: Option<string>)
      modifies this`template
      ensures template == t
    {
      template := t;
    }

    /**
     * `templateExists()`: false without paths or template; otherwise scans the
     * directories in order and stops at the first readable file.
     */
    method TemplateExists(fs: Fs) returns (found: bool)
      ensures found == TemplateFound(fs, paths, template, extension)
    {
      if paths == [] || template.None? {
        return false;
      }
      var file := TemplateFile(template.value, extension);
      var i := 0;
      while i < |paths|
        invariant 0 <= i <= |paths|
        invariant forall j :: 0 <= j < i ==> !IsReadableFile(fs, Join(paths[j], file))
      {
        if IsReadableFile(fs, Join(paths[i], file)) {
          return true;
        }
        i := i + 1;
      }
      return false;
    }

    /** `setExtension($extension)`: stored with exactly one leading dot. */
    method SetExtension(e: Option<string>)
      modifies this`extension
      ensures extension == Extension.Normalize(e)
    {
      if e.Some? && e.value != "" {
        extension := Some("." + Extension.LTrimDots(e.value));
      } else {
        extension := e;
      }
    }

    // ---------------------------------------------------------------------
    // Search paths

    /** `addPath($path, $prepend)` */
    method AddPath(path: string, prepend: bool)
      requires Valid()
      modifies this`paths
      ensures Valid()
      ensures paths == PathList.AddPath(old(paths), path, prepend)
      ensures HasPath(path)
    {
      if path !in paths {
        if prepend {
          paths := [path] + paths;
        } else {
          paths := paths + [path];
        }
      }
    }

    /** `addPaths($ps, $prepend)`: one `addPath` per element, the input reversed when prepending. */
    method AddPaths(ps: seq<string>, prepend: bool)
      requires Valid()
      modifies this`paths
      ensures Valid()
      ensures paths == PathList.AddPaths(old(paths), ps, prepend)
    {
      var qs := if prepend then PathList.Reverse(ps) else ps;
      var i := 0;
      while i < |qs|
        invariant 0 <= i <= |qs|
        invariant Valid()
        invariant paths == PathList.AddEach(old(paths), qs[..i], prepend)
      {
        PathList.AddEachStep(old(paths), qs, i, prepend);
        AddPath(qs[i], prepend);
        i := i + 1;
      }
      assert qs[..i] == qs;
    }

    /**
     * `replacePaths($ps)`: empties the list, then calls `addPaths($ps)` once
     * per element; the list ends as `ps` without repetitions.
     */
    method ReplacePaths(ps: seq<string>)
      requires Valid()
      modifies this`paths
      ensures Valid()
      ensures paths == PathList.Dedup(ps)
    {
      paths := [];
      PathList.ReplaceStep(ps);
      var i := 0;
      while i < |ps|
        invariant 0 <= i <= |ps|
        invariant Valid()
        invariant paths == if i == 0 then [] else PathList.Dedup(ps)
      {
        AddPaths(ps, false);
        i := i + 1;
      }
      assert ps == [] ==> PathList.Dedup(ps) == [];
    }

    /** `hasPath($path)`: strict `in_array`, true exactly when `array_search` finds the path. */
    function HasPath(path: string): (r: bool)
      reads this
      ensures r <==> PathList.IndexOf(paths, path) < |paths|
    {
      path in paths
    }

    /** `removePath($path)`: deletes the path, keeping the others in order. */
    method RemovePath(path: string)
      requires Valid()
      modifies this`paths
      ensures Valid()
      ensures paths == PathList.FilterOut(old(paths), [path])
      ensures !HasPath(path)
      ensures path !in old(paths) ==> paths == old(paths)
    {
      ghost var before := paths;
      PathList.RemoveAt(before, path);
      PathList.RemoveMembers(before, path);
      var k := PathList.IndexOf(paths, path);
      if k < |paths| {
        paths := paths[..k] + paths[k + 1..];
      }
      assert paths == PathList.FilterOut(before, [path]);
    }

    method ClearPaths()
      modifies this`paths
      ensures paths == []
    {
      paths := [];
    }

    // ---------------------------------------------------------------------
    // Options

    /** `setOptions($es)`: the options become exactly the given array. */
    method SetOptions(es: Entries)
      modifies this`options
      ensures options == Upsert(map[], es)
    {
      options := map[];
      MergeOptions(es);
    }

    /** `mergeOptions($es)`: each pair is stored in turn, overriding. */
    method MergeOptions(es: Entries)
      modifies this`options
      ensures options == Upsert(old(options), es)
    {
      var i := 0;
      while i < |es|
        invariant 0 <= i <= |es|
        invariant options == Upsert(old(options), es[..i])
      {
        assert es[..i + 1][..i] == es[..i];
        options := options[es[i].0 := es[i].1];
        i := i + 1;
      }
      assert es[..i] == es;
    }

    method SetOption(key: string, value: Value)
      modifies this`options
      ensures options == old(options)[key := value]
      ensures GetOption(key) == value && HasOption(key)
    {
      options := options[key := value];
    }

    /** `getOption($key)`: the stored value, `null` when absent. */
    function GetOption(key: string): (v: Value)
      reads this
      ensures HasOption(key) ==> v == options[key]
      ensures !HasOption(key) ==> v == Null
    {
      if key in options then options[key] else Null
    }

    /**
     * `hasOption($key)`: `array_key_exists`, so an option stored as `null` is
     * present although `isset` (which the adapter tests) is false for it.
     */
    function HasOption(key: string): (r: bool)
      reads this
      ensures r <==> key in options
      ensures key in options && options[key] == Null ==> r && !IsSet(options, key)
    {
      key in options
    }

    method RemoveOption(key: string)
      modifies this`options
      ensures options == old(options) - {key}
      ensures !HasOption(key) && GetOption(key) == Null
    {
      options := options - {key};
    }

    method ClearOptions()
      modifies this`options
      ensures options == map[]
    {
      options := map[];
    }

    // ---------------------------------------------------------------------
    // View data

    /**
     * `set($key, $value)`: stores the value under a key that keeps the key
     * rule; any other key raises an invalid-key error and stores nothing.
     */
    method Set(key: string, value: Value) returns (r: Outcome<ViewError>)
      requires Valid()
      modifies this`data
      ensures Valid()
      ensures IsValidKey(key) ==> r == Pass && data == old(data)[key := value] && Get(key, Null) == value
      ensures !IsValidKey(key) ==> r == Fail(InvalidKey(FromSet, key)) && data == old(data)
    {
      if !IsValidKey(key) {
        return Fail(InvalidKey(FromSet, key));
      }
      data := data[key := value];
      return Pass;
    }

    /**
     * `mergeData($es)`: `set` for each pair in order; the first invalid key
     * stops the loop with the pairs before it already stored.
     */
    method MergeData(es: Entries) returns (r: Outcome<ViewError>)
      requires Valid()
      modifies this`data
      ensures Valid()
      ensures var j := FirstInvalidKey(es);
        && data == Upsert(old(data), es[..j])
        && r == if j == |es| then Pass else Fail(InvalidKey(FromSet, es[j].0))
    {
      var i := 0;
      while i < |es|
        invariant 0 <= i <= |es|
        invariant Valid()
        invariant i <= FirstInvalidKey(es)
        invariant data == Upsert(old(data), es[..i])
      {
        assert es[..i + 1][..i] == es[..i];
        r := Set(es[i].0, es[i].1);
        if r.Fail? {
          assert FirstInvalidKey(es) == i;
          return;
        }
        assert FirstInvalidKey(es) != i;
        i := i + 1;
      }
      assert es[..i] == es;
      assert FirstInvalidKey(es) == |es|;
      return Pass;
    }

    /** `setData($es)`: empties the data, then `mergeData($es)`. */
    method SetData(es: Entries) returns (r: Outcome<ViewError>)
      requires Valid()
      modifies this`data
      ensures Valid()
      ensures var j := FirstInvalidKey(es);
        && data == Upsert(map[], es[..j])
        && r == if j == |es| then Pass else Fail(InvalidKey(FromSet, es[j].0))
    {
      data := map[];
      r := MergeData(es);
    }

    method ClearData()
      requires Valid()
      modifies this`data
      ensures Valid()
      ensures data == map[]
    {
      data := map[];
    }

    /** `get($key, $default)`: the stored value, the caller's default when absent. */
    function Get(key: string, default: Value): (v: Value)
      reads this
      ensures Has(key) ==> v == data[key]
      ensures !Has(key) ==> v == default
    {
      if key in data then data[key] else default
    }

    /** `has($key)`: presence; under the invariant only keys `set` accepted are present. */
    function Has(key: string): (r: bool)
      reads this
      ensures r <==> key in data
      ensures Valid() && r ==> IsValidKey(key)
    {
      key in data
    }

    method Remove(key: string)
      requires Valid()
      modifies this`data
      ensures Valid()
      ensures data == old(data) - {key}
      ensures !Has(key) && forall d :: Get(key, d) == d
    {
      data := data - {key};
    }

    // ---------------------------------------------------------------------
    // Helpers

    /**
     * `addHelper($helper)`: registers the helper under its own name; a name
     * already registered raises a duplicate-helper error and an invalid name
     * an invalid-key error, in that order, both leaving the registry as it was.
     */
    method AddHelper(h: ViewHelper) returns (r: Outcome<ViewError>)
      requires Valid()
      modifies this`helpers
      ensures Valid()
      ensures h.name in old(helpers) ==> r == Fail(DuplicateHelper(h.name)) && helpers == old(helpers)
      ensures h.name !in old(helpers) && !IsValidKey(h.name) ==>
        r == Fail(InvalidKey(FromAddHelper, h.name)) && helpers == old(helpers)
      ensures h.name !in old(helpers) && IsValidKey(h.name) ==>
        r == Pass && helpers == old(helpers)[h.name := h]
    {
      var name := h.name;
      if name in helpers {
        return Fail(DuplicateHelper(name));
      }
      if !IsValidKey(name) {
        return Fail(InvalidKey(FromAddHelper, name));
      }
      helpers := helpers[name := h];
      return Pass;
    }

    // ---------------------------------------------------------------------
    // Rendering

    /**
     * `render()`: an undefined adapter is reported first, a template no
     * directory holds second; otherwise template, extension, paths, options,
     * data and helpers are pushed into the adapter, which renders, and an
     * engine failure comes back wrapped in a render failure. The ghost result
     * is the loader a Mustache adapter builds while resolving its options.
     */
    method Render(fs: Fs, render: EngineRender) returns (r: Result<string, ViewError>, ghost loader: Loader.MustacheFileLoader?)
      modifies if adapter.Some? then {adapter.value} else {}
      ensures adapter.None? ==> r == Failure(UndefinedAdapter)
      ensures adapter.Some? && !TemplateFound(fs, paths, template, extension) ==>
        r == Failure(InvalidTemplate(TextOf(template) + TextOf(extension), paths))
        && unchanged(adapter.value)
      ensures adapter.Some? && TemplateFound(fs, paths, template, extension) ==>
        && adapter.value.template == template && adapter.value.extension == extension
        && adapter.value.paths == paths && adapter.value.data == data && adapter.value.helpers == helpers
      ensures adapter.Some? && TemplateFound(fs, paths, template, extension) && adapter.value.engine == Twig ==>
        adapter.value.options == options
      ensures adapter.Some? && TemplateFound(fs, paths, template, extension) && adapter.value.engine == Mustache ==>
        && loader != null && fresh(loader)
        && loader.paths == paths && loader.extension == extension
        && adapter.value.options == ResolvedOptions(options, helpers, Object(loader))
      ensures adapter.Some? && TemplateFound(fs, paths, template, extension) ==> r == WrapRender(render(adapter.value.State()))
    {
      loader := null;
      var got := GetAdapter();
      if got.Failure? {
        return Failure(got.error), loader;
      }
      var a := got.value;
      var found := TemplateExists(fs);
      if !found {
        return Failure(InvalidTemplate(TextOf(template) + TextOf(extension), paths)), loader;
      }
      a.SetTemplate(template);
      a.SetExtension(extension);
      a.SetPaths(paths);
      a.SetOptions(options);
      a.SetData(data);
      a.SetHelpers(helpers);
      var outcome;
      outcome, loader := a.Render(render);
      r := WrapRender(outcome);
      assert unchanged(this);
      assert TemplateFound(fs, paths, template, extension);
    }
  }
}
