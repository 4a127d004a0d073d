/**
 * The part of the filesystem the view component looks at.
 *
 * A path is a key of the map when `is_file` holds for it; its entry is
 * `Some(contents)` when the file is also readable and `None` when it is not.
 * The host directory separator is fixed to "/".
 */
module FileSystem {
  import opened Wrappers

  type Fs = map<string, Option<string>>

  const Separator: string := "/"

  /** `is_file($file) && is_readable($file)` */
  predicate IsReadableFile(fs: Fs, file: string) {
    file in fs && fs[file].Some?
  }

  /** `$path.DIRECTORY_SEPARATOR.$name` */
  function Join(dir: string, name: string): string {
    dir + Separator + name
  }

  /**
   * The index of the first directory, in scan order, under which `name` is a
   * readable file; `None` when there is none.
   */
  function FirstReadable(fs: Fs, dirs: seq<string>, name: string): (r: Option<nat>)
    ensures r.Some? ==> r.value < |dirs| && IsReadableFile(fs, Join(dirs[r.value], name))
    ensures r.Some? ==> forall j :: 0 <= j < r.value ==> !IsReadableFile(fs, Join(dirs[j], name))
    ensures r.None? <==> forall j :: 0 <= j < |dirs| ==> !IsReadableFile(fs, Join(dirs[j], name))
    decreases |dirs|
  {
    if |dirs| == 0 then None
    else if IsReadableFile(fs, Join(dirs[0], name)) then Some(0)
    else
      match FirstReadable(fs, dirs[1..], name)
      case None => None
      case Some(i) => Some(i + 1)
  }

  /** The file a search directory must hold: the template name, then the extension. */
  function TemplateFile(template: string, extension: Option<string>): string {
    template + TextOf(extension)
  }

  /**
   * `templateExists()`: there are search paths, a template is set, and some
   * search directory holds its file readable.
   */
  predicate TemplateFound(fs: Fs, paths: seq<string>, template: Option<string>, extension: Option<string>): (b: bool)
    ensures b <==> (template.Some? &&
      exists i :: 0 <= i < |paths| && IsReadableFile(fs, Join(paths[i], TemplateFile(template.value, extension))))
  {
    && paths != []
    && template.Some?
    && FirstReadable(fs, paths, TemplateFile(template.value, extension)).Some?
  }
}
