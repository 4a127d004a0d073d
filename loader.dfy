/**
 * The template loader handed to the Mustache engine: it turns a template name
 * into a file name, finds the first search directory holding that file, and
 * caches what it read per resolved file path.
 */
module Loader {
  import opened Wrappers
  import opened FileSystem

  predicate EndsWith(s: string, suffix: string) {
    |suffix| <= |s| && s[|s| - |suffix|..] == suffix
  }

  /**
   * `getFileName($name)`: the name with the extension appended, unless it
   * already ends with it.
   */
  function FileName(name: string, extension: Option<string>): (r: string)
    ensures EndsWith(r, TextOf(extension))
    ensures r == name || r == name + TextOf(extension)
    ensures r == name <==> EndsWith(name, TextOf(extension))
  {
    var ext := TextOf(extension);
    if EndsWith(name, ext) then name
    else
      assert (name + ext)[|name + ext| - |ext|..] == ext;
      name + ext
  }

  /** Resolving a resolved name again changes nothing. */
  lemma FileNameIdempotent(name: string, extension: Option<string>)
    ensures FileName(FileName(name, extension), extension) == FileName(name, extension)
  {
  }

  /** Without an extension (or with an empty one) names are used as given. */
  lemma FileNameWithoutExtension(name: string)
    ensures FileName(name, None) == name && FileName(name, Some("")) == name
  {
    assert name[|name|..] == "";
  }

  /** `implode($sep, $parts)` */
  function Implode(parts: seq<string>, sep: string): (r: string)
    ensures parts == [] ==> r == ""
    ensures |parts| > 0 ==> |parts[0]| <= |r| && r[..|parts[0]|] == parts[0]
    ensures |parts| > 0 ==> EndsWith(r, parts[|parts| - 1])
    decreases |parts|
  {
    if parts == [] then ""
    else if |parts| == 1 then parts[0]
    else Implode(parts[..|parts| - 1], sep) + sep + parts[|parts| - 1]
  }

  /** The failure `load` raises: Mustache's unknown-template error. */
  datatype LoaderError = UnknownTemplate(message: string)

  /** The message the unknown-template error is meant to carry. */
  function UnknownTemplateMessage(fileName: string, paths: seq<string>): string {
    fileName + " >> paths: [" + Implode(paths, ", ") + "]"
  }

  class MustacheFileLoader {
    const paths: seq<string>
    const extension: Option<string>
    /** Contents already read, keyed by resolved file path. */
    var templates: map<string, string>

    constructor (paths: seq<string>, extension: Option<string>)
      ensures this.paths == paths && this.extension == extension
      ensures templates == map[]
    {
      this.paths := paths;
      this.extension := extension;
      templates := map[];
    }

    /**
     * `load($name)`: the contents of the first readable `dir/fileName` in
     * directory order, from the cache when that file was read before; an
     * unknown-template error when no directory has it.
     */
    method Load(fs: Fs, name: string) returns (r: Result<string, LoaderError>)
      modifies this`templates
      ensures var file := FileName(name, extension);
        match FirstReadable(fs, paths, file)
        case None =>
          r == Failure(UnknownTemplate(UnknownTemplateMessage(file, paths)))
          && templates == old(templates)
        case Some(i) =>
          var f := Join(paths[i], file);
          f in templates && r == Success(templates[f])
          && (f in old(templates) ==> templates == old(templates))
          && (f !in old(templates) ==> templates == old(templates)[f := fs[f].value])
    {
      var fileName := FileName(name, extension);
      var i := 0;
      while i < |paths|
        invariant 0 <= i <= |paths|
        invariant forall j :: 0 <= j < i ==> !IsReadableFile(fs, Join(paths[j], fileName))
        invariant templates == old(templates)
      {
        var file := Join(paths[i], fileName);
        if IsReadableFile(fs, file) {
          if file !in templates {
            templates := templates[file := fs[file].value];
          }
          r := Success(templates[file]);
          return;
        }
        i := i + 1;
      }
      r := Failure(UnknownTemplate(UnknownTemplateMessage(fileName, paths)));
    }
  }

  /** The directory the loader test searches, holding `content/index.html`. */
  const TestFs: Fs := map[Join("/t", "content/index.html") := Some("<div>")]

  /**
   * The loader test, first half: with extension ".html", `content/index`
   * resolves to the nested `content/index.html` in the only directory.
   */
  lemma LoaderTestFindsNested()
    ensures FileName("content/index", Some(".html")) == "content/index.html"
    ensures FirstReadable(TestFs, ["/t"], FileName("content/index", Some(".html"))) == Some(0)
  {
    NestedFileName();
    assert IsReadableFile(TestFs, Join("/t", "content/index.html"));
  }

  lemma NestedFileName()
    ensures FileName("content/index", Some(".html")) == "content/index.html"
  {
    assert "content/index"[8] != ".html"[0];
    assert !EndsWith("content/index", ".html");
    assert "content/index" + ".html" == "content/index.html";
  }

  /** The loader test, second half: `foo` resolves to no readable file. */
  lemma LoaderTestUnknown()
    ensures FirstReadable(TestFs, ["/t"], FileName("foo", Some(".html"))) == None
  {
    assert !EndsWith("foo", ".html");
    assert |Join("/t", "foo.html")| == 11;
  }

  // -----------------------------------------------------------------------
  // The message as the code builds it

  /** What PHP's `sprintf` yields, as far as this model follows it. */
  datatype Formatted = Output(s: string) | TooFewArguments | Unmodelled

  /**
   * `sprintf($format, ...$args)` for the `%%` and `%s` directives; any other
   * directive is outside this model. PHP reports a directive without a
   * matching argument instead of formatting.
   */
  function Sprintf(format: string, args: seq<string>): (r: Formatted)
    ensures '%' !in format ==> r == Output(format)
    decreases |format|
  {
    if format == [] then Output("")
    else if format[0] != '%' then
      assert format == [format[0]] + format[1..];
      Prefix([format[0]], Sprintf(format[1..], args))
    else if |format| == 1 then Unmodelled
    else if format[1] == '%' then Prefix("%", Sprintf(format[2..], args))
    else if format[1] == 's' then
      if args == [] then TooFewArguments else Prefix(args[0], Sprintf(format[2..], args[1..]))
    else Unmodelled
  }

  function Prefix(p: string, f: Formatted): Formatted {
    if f.Output? then Output(p + f.s) else f
  }

  /**
   * `sprintf($fileName.' >> paths: [%s]', implode(', ', $paths))`: the file
   * name becomes part of the format string.
   */
  function UnknownTemplateMessageAsWritten(fileName: string, paths: seq<string>): (r: Formatted)
    ensures '%' !in fileName ==> r == Output(UnknownTemplateMessage(fileName, paths))
  {
    if '%' !in fileName then
      FormatWithoutPercent(fileName, Implode(paths, ", "));
      Sprintf(fileName + " >> paths: [%s]", [Implode(paths, ", ")])
    else Sprintf(fileName + " >> paths: [%s]", [Implode(paths, ", ")])
  }

  lemma {:induction false} SprintfLiteralPrefix(lit: string, rest: string, args: seq<string>)
    requires '%' !in lit
    ensures Sprintf(lit + rest, args) == Prefix(lit, Sprintf(rest, args))
    decreases |lit|
  {
    if lit == [] {
      assert lit + rest == rest;
      var f := Sprintf(rest, args);
      if f.Output? { assert "" + f.s == f.s; }
    } else {
      assert (lit + rest)[0] == lit[0];
      assert (lit + rest)[1..] == lit[1..] + rest;
      SprintfLiteralPrefix(lit[1..], rest, args);
      var f := Sprintf(rest, args);
      if f.Output? { ConsPrefix(lit, f.s); }
    }
  }

  lemma ConsPrefix(lit: string, t: string)
    requires lit != []
    ensures [lit[0]] + (lit[1..] + t) == lit + t
  {
    assert lit == [lit[0]] + lit[1..];
  }

  /** With no `%` in the file name, the format has one directive, filled by the path list. */
  lemma FormatWithoutPercent(fileName: string, joined: string)
    requires '%' !in fileName
    ensures Sprintf(fileName + " >> paths: [%s]", [joined]) == Output(fileName + " >> paths: [" + joined + "]")
  {
    var lit := fileName + " >> paths: [";
    FormatSplit(fileName);
    SprintfLiteralPrefix(lit, "%s]", [joined]);
    SprintfPathList(joined);
    assert lit + (joined + "]") == lit + joined + "]";
  }

  lemma FormatSplit(fileName: string)
    requires '%' !in fileName
    ensures fileName + " >> paths: [%s]" == (fileName + " >> paths: [") + "%s]"
    ensures '%' !in fileName + " >> paths: ["
  {
  }

  lemma SprintfPathList(joined: string)
    ensures Sprintf("%s]", [joined]) == Output(joined + "]")
  {
    assert "%s]"[2..] == "]";
    assert Sprintf("]", []) == Output("]");
  }

  /**
   * A file name that starts with `%s` (the template `%s` with extension
   * `.html`, say) uses up the only argument itself, so the `%s` meant for the
   * path list has none left and PHP produces no message at all, while the
   * intended message exists for every file name.
   */
  lemma AsWrittenLosesMessage(tail: string, paths: seq<string>)
    requires '%' !in tail
    ensures UnknownTemplateMessageAsWritten("%s" + tail, paths).TooFewArguments?
  {
    var lit := tail + " >> paths: [";
    assert '%' !in " >> paths: [";
    assert '%' !in lit;
    var format := ("%s" + tail) + " >> paths: [%s]";
    assert format == "%s" + (lit + "%s]");
    assert format[2..] == lit + "%s]";
    var args: seq<string> := [Implode(paths, ", ")];
    assert args[1..] == [];
    assert Sprintf(format, args) == Prefix(args[0], Sprintf(lit + "%s]", []));
    assert Sprintf("%s]", []) == TooFewArguments;
    SprintfLiteralPrefix(lit, "%s]", []);
  }
}
