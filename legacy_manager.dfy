/**
 * The earlier view manager of src/Novuso/Component/View/ViewManager.php:
 * adapter, template, extension and search paths. Its path operations are the
 * same as the current manager's; its extension rule also dots the empty
 * string, and it has no render step.
 */
module LegacyManager {
  import opened Wrappers
  import opened FileSystem
  import Extension
  import PathList
  import Adapter

  /** The one exception the earlier manager raises. */
  datatype ViewError = UndefinedAdapter

  class ViewManager {
    var adapter: Option<Adapter.ViewAdapter>
    var template: Option<string>
    var extension: Option<string>
    var paths: seq<string>

    /** The search paths never repeat. */
    ghost predicate Valid()
      reads this
    {
      PathList.NoDuplicates(paths)
    }

    constructor ()
      ensures Valid()
      ensures adapter == None && template == None && extension == None && paths == []
    {
      adapter, template, extension, paths := None, None, None, [];
    }

    method SetAdapter(a: Adapter.ViewAdapter)
      modifies this`adapter
      ensures adapter == Some(a)
    {
      adapter := Some(a);
    }

    /** `getAdapter()`: the adapter set last, or an undefined-adapter error. */
    method GetAdapter() returns (r: Result<Adapter.ViewAdapter, ViewError>)
      ensures adapter.None? <==> r == Failure(UndefinedAdapter)
      ensures adapter.Some? ==> r == Success(adapter.value)
    {
      if adapter.None? {
        return Failure(UndefinedAdapter);
      }
      return Success(adapter.value);
    }

    method SetTemplate(t: Option<string>)
      modifies this`template
      ensures template == t
    {
      template := t;
    }

    /** `templateExists()`: scans the directories in order for a readable file. */
    method TemplateExists(fs: Fs) returns (found: bool)
      ensures found == TemplateFound(fs, paths, template, extension)
    {
      if paths == [] || template.None? {
        return false;
      }
      var file := TemplateFile(template.value, extension);
      var i := 0;
      while i < |paths|
        invariant 0 <= i <= |paths|
        invariant forall j :: 0 <= j < i ==> !IsReadableFile(fs, Join(paths[j], file))
      {
        if IsReadableFile(fs, Join(paths[i], file)) {
          return true;
        }
        i := i + 1;
      }
      return false;
    }

    /** `setExtension($extension)`: every non-null value, even "", gets one leading dot. */
    method SetExtension(e: Option<string>)
      modifies this`extension
      ensures extension == Extension.LegacyNormalize(e)
    {
      if e.Some? {
        extension := Some("." + Extension.LTrimDots(e.value));
      } else {
        extension := e;
      }
    }

    /** `addPath($path, $prepend)` */
    method AddPath(path: string, prepend: bool)
      requires Valid()
      modifies this`paths
      ensures Valid()
      ensures paths == PathList.AddPath(old(paths), path, prepend)
      ensures HasPath(path)
    {
      if path !in paths {
        if prepend {
          paths := [path] + paths;
        } else {
          paths := paths + [path];
        }
      }
    }

    /** `addPaths($ps, $prepend)`: one `addPath` per element, the input reversed when prepending. */
    method AddPaths(ps: seq<string>, prepend: bool)
      requires Valid()
      modifies this`paths
      ensures Valid()
      ensures paths == PathList.AddPaths(old(paths), ps, prepend)
    {
      var qs := if prepend then PathList.Reverse(ps) else ps;
      var i := 0;
      while i < |qs|
        invariant 0 <= i <= |qs|
        invariant Valid()
        invariant paths == PathList.AddEach(old(paths), qs[..i], prepend)
      {
        PathList.AddEachStep(old(paths), qs, i, prepend);
        AddPath(qs[i], prepend);
        i := i + 1;
      }
      assert qs[..i] == qs;
    }

    /** `replacePaths($ps)`: empties the list, then `addPaths($ps)` once per element. */
    method ReplacePaths(ps: seq<string>)
      requires Valid()
      modifies this`paths
      ensures Valid()
      ensures paths == PathList.Dedup(ps)
    {
      paths := [];
      PathList.ReplaceStep(ps);
      var i := 0;
      while i < |ps|
        invariant 0 <= i <= |ps|
        invariant Valid()
        invariant paths == if i == 0 then [] else PathList.Dedup(ps)
      {
        AddPaths(ps, false);
        i := i + 1;
      }
      assert ps == [] ==> PathList.Dedup(ps) == [];
    }

    /** `hasPath($path)`: strict `in_array`, true exactly when `array_search` finds the path. */
    function HasPath(path: string): (r: bool)
      reads this
      ensures r <==> PathList.IndexOf(paths, path) < |paths|
    {
      path in paths
    }

    /** `removePath($path)`: deletes the path, keeping the others in order. */
    method RemovePath(path: string)
      requires Valid()
      modifies this`paths
      ensures Valid()
      ensures paths == PathList.FilterOut(old(paths), [path])
      ensures !HasPath(path)
      ensures path !in old(paths) ==> paths == old(paths)
    {
      ghost var before := paths;
      PathList.RemoveAt(before, path);
      PathList.RemoveMembers(before, path);
      var k := PathList.IndexOf(paths, path);
      if k < |paths| {
        paths := paths[..k] + paths[k + 1..];
      }
      assert paths == PathList.FilterOut(before, [path]);
    }

    method ClearPaths()
      modifies this`paths
      ensures paths == []
    {
      paths := [];
    }
  }
}
