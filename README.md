# novuso/view — a Dafny model of the view manager

novuso/view is a small PHP view layer in front of the Twig and Mustache
template engines. A *view manager* collects what a render needs: the
template name, the template file extension, an ordered list of template
directories (search paths), engine options, view data and named view
helpers. `render()` checks that an adapter is configured and that the
template file exists in one of the search paths. It then pushes all of that
state into the *view adapter*, and the adapter drives the engine. For
Mustache, the adapter first resolves its options: it installs a
*file loader* that maps template names to files, and it merges the helper
registry into the `helpers` option.

The model covers:

- the current `ViewManager` (`src/ViewManager.php`), as the class
  `Manager.ViewManager`;
- the earlier `ViewManager` (`src/Novuso/Component/View/ViewManager.php`),
  as `LegacyManager.ViewManager`;
- `MustacheFileLoader`, as `Loader.MustacheFileLoader`;
- the six setters of `BaseViewAdapter` and `resolveOptions` of
  `MustacheViewAdapter`, as `Adapter.ViewAdapter`.

Layout, one module per file:

| file | module | contents |
|---|---|---|
| `wrappers.dfy` | `Wrappers` | `Option`, `Result`, `Outcome`; `TextOf` is PHP's `(string)` of a nullable string |
| `filesystem.dfy` | `FileSystem` | the filesystem as a map from path to optional contents; the first-match directory scan |
| `keys.dfy` | `Keys` | the key rule `^[a-zA-Z_][a-zA-Z0-9_]*$` as PCRE applies it |
| `extension.dfy` | `Extension` | both versions of extension normalisation |
| `path_list.dfy` | `PathList` | the search-path list operations as values, and reference definitions with the lemmas tying them together |
| `values.dfy` | `Values` | PHP values, helpers, ordered caller arrays and how they are stored into maps |
| `loader.dfy` | `Loader` | the file loader and its unknown-template message |
| `adapter.dfy` | `Adapter` | the adapter state, its setters and Mustache option resolution |
| `manager.dfy` | `Manager` | the current view manager |
| `legacy_manager.dfy` | `LegacyManager` | the earlier view manager |

Modelling choices:

- The filesystem is a `map<string, Option<string>>`. A path in the map is a
  file (`is_file`). Its entry is `Some(contents)` when the file is also
  readable. The directory separator is `/`.
- Methods that change state are class methods with `modifies` frames on the
  fields they assign. The path operations are proved against the functions
  of `PathList`. The option and data operations are proved against
  `Values.Upsert`.
- A PHP array passed in by a caller (`setOptions`, `mergeOptions`,
  `setData`, `mergeData`) is a sequence of key/value pairs in iteration
  order, because the loops visit it in that order. A stored array is a
  `map`.
- A nullable PHP string is an `Option<string>`.
- PHP's `preg_match` with `$` also accepts one final `"\n"`. So `"foo\n"` is
  a valid key (`Keys.IsValidKey`).
- Exceptions are `Failure`/`Fail` values of an error datatype:
  `Manager.ViewError`, `LegacyManager.ViewError` and `Loader.LoaderError`. They carry the data the
  exception is built from.
- The engine's own rendering is a parameter `render: AdapterState ->
  Result<string, string>`. It stands for what Twig or Mustache produce from
  the adapter's state, or the message of the exception they throw.
- `Manager.ViewManager.Render` returns, as a ghost value, the loader that a
  Mustache adapter creates, so that its contract can name it.

## Model

| member | source | states |
|---|---|---|
| FileSystem.TemplateFound | src/ViewManager.php:130-143 | true exactly when a template is set and some directory holds `template + extension` as a readable file; so false without paths or template |
| FileSystem.FirstReadable | src/ViewManager.php:135-140 | the index of the first directory in scan order under which the name is a readable file: readable there, not readable at any earlier directory; `None` exactly when no directory holds it |
| Keys.MatchKeyIsValidKey | src/ViewManager.php:383 | matching the pattern character by character, as the regex engine does, accepts exactly the keys of the declarative rule (identifier, optionally followed by one final newline) |
| Keys.MatchRestSound | src/ViewManager.php:430 | the tail of the pattern accepts exactly word characters to the end, or word characters followed by one final newline |
| Keys.IsValidKey | src/ViewManager.php:383 | a valid key is non-empty, starts with a letter or `_`, and holds only letters, digits and `_`, except that its last character may be a newline after at least one more character |
| Extension.LTrimDots | src/ViewManager.php:151 | `ltrim($e, '.')` is a suffix of its input, everything it drops is a dot, and it does not start with a dot |
| Extension.Normalize | src/ViewManager.php:148-156 | null stays null, `""` stays `""`, any other string becomes one dot followed by no dot |
| Extension.LegacyNormalize | src/Novuso/Component/View/ViewManager.php:146-154 | null stays null, every string, `""` included, becomes one dot followed by no dot |
| Extension.NormalizeKeepsRest | src/ViewManager.php:150-151 | the rewritten extension is `"."` plus the caller's string after its leading dots, for both versions; nothing else is changed |
| Extension.NormalizeIdempotent | src/ViewManager.php:148-156 | normalising a normalised extension changes nothing |
| Extension.LegacyNormalizeIdempotent | src/Novuso/Component/View/ViewManager.php:146-154 | the same for the legacy rule |
| Extension.VersionsDifferOnlyOnEmpty | src/Novuso/Component/View/ViewManager.php:148-151 | the two versions differ on exactly one input, `""`, which the legacy version turns into `"."` |
| PathList.AddPath | src/ViewManager.php:201-213 | the path is present afterwards; the list is unchanged when it was present; no duplicate is ever introduced |
| PathList.AddPathsAppend | src/ViewManager.php:182-196 | appending keeps the existing list and adds the new paths behind it, each once, in the order of their first occurrence in the input |
| PathList.AddPathsPrepend | src/ViewManager.php:184-188 | prepending keeps the existing list and puts the new paths in front, each once; a path that the input repeats takes the place of its last occurrence |
| PathList.AddPathsDistinct | src/Api/ViewManagerInterface.php:96-104 | for input without repetitions, prepending gives `new ++ existing` and appending gives `existing ++ new`, with the new paths in input order, so the first given path has the higher match priority |
| PathList.AddPaths | src/ViewManager.php:182-196 | adding paths in either mode keeps the list duplicate-free, and the result holds exactly the old paths and the given ones |
| PathList.AddEach | src/ViewManager.php:186-192 | calling `addPath` for each element in turn leaves exactly the old paths and the given ones, and keeps a duplicate-free list duplicate-free |
| PathList.Reverse | src/ViewManager.php:185 | `array_reverse`: the same length, with position `i` holding the element at position `n - 1 - i` |
| PathList.AppendEachIs | src/ViewManager.php:190-192 | calling `addPath` for each element in turn, appending, equals the old list followed by the deduplicated new elements |
| PathList.PrependEachIs | src/ViewManager.php:186-188 | calling `addPath` for each element in turn, prepending, equals the reversed deduplicated new elements followed by the old list |
| PathList.NewTail | src/ViewManager.php:204 | the new paths of an input are those of all but its last element, plus the last one when it is neither old nor already new |
| PathList.ReplaceStep | src/ViewManager.php:169-177 | from an empty list, adding `ps` gives `ps` without repetitions, and adding `ps` again changes nothing |
| PathList.DedupMembers | src/ViewManager.php:169-177 | removing repetitions keeps exactly the input's elements and leaves no repetition |
| PathList.DedupOfDistinct | src/ViewManager.php:169-177 | a list without repetitions is unchanged by removing repetitions |
| PathList.DedupIdempotent | src/ViewManager.php:169-177 | removing repetitions twice is removing them once |
| PathList.FilterOutMembers | src/ViewManager.php:204 | the elements left after dropping those of `e` are exactly the others, and filtering keeps a list duplicate-free |
| PathList.FilterOutReverse | src/ViewManager.php:185 | filtering commutes with reversing |
| PathList.ReverseReverse | src/ViewManager.php:185 | reversing twice gives the list back |
| PathList.IndexOf | src/ViewManager.php:236 | `array_search`: the first position holding the path, or the length when it is absent |
| PathList.RemoveAt | src/ViewManager.php:234-242 | on a duplicate-free list, deleting the found position (or nothing, when absent) is the list without that path, the rest in order |
| PathList.RemoveMembers | src/ViewManager.php:226-242 | after removal the path is gone, every other path is still there, and the list stays duplicate-free |
| Values.Upsert | src/ViewManager.php:270-277 | storing an array's pairs one by one keeps every old key and adds exactly the array's keys |
| Values.UpsertLookup | src/ViewManager.php:270-277 | after storing, a key of the array holds the value of its last pair, and every other key keeps its old value |
| Values.UpsertIsOverride | src/ViewManager.php:257-265 | storing onto a map is that map overridden by the array's own map, so `setOptions` replaces and `mergeOptions` upserts |
| Loader.FileName | src/Novuso/Component/View/Loader/MustacheFileLoader.php:92-100 | the file name always ends with the extension; it is the name itself exactly when the name already ends with the extension, otherwise the name with the extension appended |
| Loader.FileNameIdempotent | src/Novuso/Component/View/Loader/MustacheFileLoader.php:92-100 | resolving a resolved file name changes nothing |
| Loader.FileNameWithoutExtension | src/Novuso/Component/View/Loader/MustacheFileLoader.php:94-96 | a null or empty extension leaves the name unchanged |
| Loader.MustacheFileLoader.constructor | src/Novuso/Component/View/Loader/MustacheFileLoader.php:55-59 | the loader keeps the given paths and extension and starts with an empty cache |
| Loader.MustacheFileLoader.Load | src/Novuso/Component/View/Loader/MustacheFileLoader.php:68-83 | returns the contents of the first readable `dir/fileName` in directory order; a file already cached is served from the cache with the cache unchanged, a new one is read and added with every other entry unchanged; when no directory holds the file, an unknown-template error with message `fileName >> paths: [p1, p2]` and the cache unchanged |
| Loader.LoaderTestFindsNested | tests/Novuso/UnitTest/View/Loader/MustacheFileLoaderTest.php:59 | with extension `.html`, `content/index` resolves to the nested `content/index.html` found in the only directory |
| Loader.NestedFileName | tests/Novuso/UnitTest/View/Loader/MustacheFileLoaderTest.php:59 | the file name of `content/index` with extension `.html` is `content/index.html` |
| Loader.LoaderTestUnknown | tests/Novuso/UnitTest/View/Loader/MustacheFileLoaderTest.php:66-69 | `foo` resolves to no readable file, so the load fails |
| Loader.SprintfLiteralPrefix | src/Novuso/Component/View/Loader/MustacheFileLoader.php:81 | a format prefix without `%` is copied to the output unchanged |
| Loader.Implode | src/Novuso/Component/View/Loader/MustacheFileLoader.php:81 | `implode`: empty for no parts; otherwise the result starts with the first part and ends with the last |
| Loader.Sprintf | src/Novuso/Component/View/Loader/MustacheFileLoader.php:81 | a format without `%` is output unchanged |
| Loader.FormatWithoutPercent | src/Novuso/Component/View/Loader/MustacheFileLoader.php:81 | formatting `fileName >> paths: [%s]` with the joined paths gives the intended message when the file name holds no `%` |
| Loader.UnknownTemplateMessageAsWritten | src/Novuso/Component/View/Loader/MustacheFileLoader.php:81 | for a file name without `%`, the message as the code builds it is the intended message |
| Loader.AsWrittenLosesMessage | src/Novuso/Component/View/Loader/MustacheFileLoader.php:81 | for a file name starting with `%s`, the code's `sprintf` call runs out of arguments instead of building the message |
| Adapter.IsSet | src/Novuso/Component/View/Adapter/MustacheViewAdapter.php:43-49 | `isset` on an option: only a present key can be set, and a key holding null is not set |
| Adapter.HelperValues | src/Novuso/Component/View/Adapter/MustacheViewAdapter.php:50 | the helper registry as an array value has the same names, each holding its helper object by identity |
| Adapter.MergedHelpers | src/Novuso/Component/View/Adapter/MustacheViewAdapter.php:49-53 | without a caller `helpers` option, the adapter's helpers; with a caller array, the union of both name sets, where a shared name holds the adapter's helper and a caller-only name keeps the caller's value; a non-array option gives null |
| Adapter.ResolvedOptions | src/Novuso/Component/View/Adapter/MustacheViewAdapter.php:40-56 | the result has the old keys plus `loader`, `partials_loader` and `helpers`; every other option is unchanged; each loader option keeps a set caller value and otherwise is the new loader; `helpers` is the merge above |
| Adapter.DefaultLoadersShared | src/Novuso/Component/View/Adapter/MustacheViewAdapter.php:42-48 | when both loader options are unset, both hold the same loader |
| Adapter.HelperMergeTest | tests/unit/Adapter/MustacheViewAdapterTest.php:79-92 | the caller's `lang` helper and the adapter's `layout` helper are both present after resolution |
| Adapter.ViewAdapter.constructor | src/Novuso/Component/View/Adapter/BaseViewAdapter.php:29-69 | a new adapter has no template or extension and empty paths, options, data and helpers |
| Adapter.ViewAdapter.SetTemplate | src/Novuso/Component/View/Adapter/BaseViewAdapter.php:74-77 | stores the template as given; it may change only that field |
| Adapter.ViewAdapter.SetExtension | src/Novuso/Component/View/Adapter/BaseViewAdapter.php:82-85 | stores the extension as given, without normalisation; it may change only that field |
| Adapter.ViewAdapter.SetPaths | src/Novuso/Component/View/Adapter/BaseViewAdapter.php:90-93 | replaces the paths wholesale; it may change only that field |
| Adapter.ViewAdapter.SetOptions | src/Novuso/Component/View/Adapter/BaseViewAdapter.php:98-101 | replaces the options wholesale; it may change only that field |
| Adapter.ViewAdapter.SetData | src/Novuso/Component/View/Adapter/BaseViewAdapter.php:106-109 | replaces the data wholesale; it may change only that field |
| Adapter.ViewAdapter.SetHelpers | src/Novuso/Component/View/Adapter/BaseViewAdapter.php:114-117 | stores the helper objects by identity under the given names; it may change only that field |
| Adapter.ViewAdapter.ResolveOptions | src/Novuso/Component/View/Adapter/MustacheViewAdapter.php:40-56 | builds a fresh loader over the adapter's paths and extension with an empty cache, writes the resolved options back into the options field, and returns that new field |
| Adapter.ViewAdapter.Render | src/Novuso/Component/View/Adapter/MustacheViewAdapter.php:27-32 | a Mustache adapter resolves its options first, with a fresh loader over the adapter's paths and extension, a Twig adapter leaves them alone; the result is the engine's rendering of the adapter's state |
| Manager.FirstInvalidKey | src/ViewManager.php:351-358 | the position of the first pair whose key breaks the key rule: every earlier key is valid, and the pair there is invalid unless it is the end |
| Manager.WrapRender | src/ViewManager.php:461-465 | the adapter's output is returned as is; an engine failure becomes a render failure carrying its message |
| Manager.ViewManager.constructor | src/ViewManager.php:37-85 | a new manager has no adapter, template or extension, and empty paths, options, data and helpers |
| Manager.ViewManager.SetAdapter | src/ViewManager.php:90-95 | stores the adapter |
| Manager.ViewManager.GetAdapter | src/ViewManager.php:100-107 | fails with an undefined-adapter error exactly when no adapter is set; otherwise returns the adapter set last |
| Manager.ViewManager.SetTemplate | src/ViewManager.php:112-117 | stores the template name as given |
| Manager.ViewManager.TemplateExists | src/ViewManager.php:130-143 | false without paths or template; otherwise true exactly when some directory holds `template + extension` as a readable file |
| Manager.ViewManager.SetExtension | src/ViewManager.php:148-156 | stores the normalised extension |
| Manager.ViewManager.AddPath | src/ViewManager.php:201-213 | the list becomes `PathList.AddPath` of the old list, stays duplicate-free, and holds the path |
| Manager.ViewManager.AddPaths | src/ViewManager.php:182-196 | the list becomes `PathList.AddPaths` of the old list and stays duplicate-free |
| Manager.ViewManager.HasPath | src/ViewManager.php:226-229 | true exactly when the path is in the list |
| Manager.ViewManager.ReplacePaths | src/ViewManager.php:169-177 | the list becomes the given paths without repetitions, first occurrences kept; an empty input gives an empty list |
| Manager.ViewManager.RemovePath | src/ViewManager.php:234-242 | the list loses exactly that path and keeps the others in order; nothing changes when the path is absent |
| Manager.ViewManager.ClearPaths | src/ViewManager.php:247-252 | the list is empty |
| Manager.ViewManager.SetOptions | src/ViewManager.php:257-265 | the options become exactly the given array |
| Manager.ViewManager.MergeOptions | src/ViewManager.php:270-277 | the given pairs are stored over the old options, a later pair winning |
| Manager.ViewManager.SetOption | src/ViewManager.php:282-287 | the option holds the value afterwards, and the others are unchanged |
| Manager.ViewManager.GetOption | src/ViewManager.php:300-307 | the stored value of a present option, null for an absent one |
| Manager.ViewManager.HasOption | src/ViewManager.php:312-315 | true exactly when the key is present, including when it holds null, which `isset` would reject |
| Manager.ViewManager.RemoveOption | src/ViewManager.php:320-325 | the option is absent afterwards and reads as null; the others are unchanged |
| Manager.ViewManager.ClearOptions | src/ViewManager.php:330-335 | no options remain |
| Manager.ViewManager.Set | src/ViewManager.php:381-389 | a valid key is stored and reads back as the value; an invalid key fails with an invalid-key error naming `set` and the key, and the data are unchanged |
| Manager.ViewManager.MergeData | src/ViewManager.php:351-358 | the pairs before the first invalid key are stored in order; that key, if any, is reported as an invalid-key error; the data keep only valid keys |
| Manager.ViewManager.SetData | src/ViewManager.php:340-346 | the data are emptied, then filled as by `mergeData`, so a bad key midway leaves the earlier pairs stored |
| Manager.ViewManager.ClearData | src/ViewManager.php:371-376 | no data remain |
| Manager.ViewManager.Get | src/ViewManager.php:394-401 | the stored value of a present key, the caller's default for an absent one |
| Manager.ViewManager.Has | src/ViewManager.php:406-409 | true exactly when the key is present; every present key obeys the key rule |
| Manager.ViewManager.Remove | src/ViewManager.php:414-419 | the key is absent afterwards, so any default is returned for it; the others are unchanged |
| Manager.ViewManager.AddHelper | src/ViewManager.php:424-436 | a registered name fails with a duplicate-helper error first; then an invalid name fails with an invalid-key error naming `addHelper`; both leave the registry unchanged; otherwise the helper is registered under its name |
| Manager.ViewManager.Render | src/ViewManager.php:449-466 | an undefined adapter is reported before anything else; a missing template next, carrying `template + extension` and the paths, with the adapter unchanged; otherwise the adapter receives template, extension, paths, options, data and helpers, Mustache options are resolved with a fresh loader that searches the manager's paths with its extension, and the engine's output comes back as is, or its failure message wrapped in a render failure |
| LegacyManager.ViewManager.constructor | src/Novuso/Component/View/ViewManager.php:35-83 | a new manager has no adapter, template or extension, and no paths |
| LegacyManager.ViewManager.SetAdapter | src/Novuso/Component/View/ViewManager.php:88-93 | stores the adapter |
| LegacyManager.ViewManager.GetAdapter | src/Novuso/Component/View/ViewManager.php:98-105 | fails with an undefined-adapter error exactly when no adapter is set; otherwise returns the adapter set last |
| LegacyManager.ViewManager.SetTemplate | src/Novuso/Component/View/ViewManager.php:110-115 | stores the template name as given |
| LegacyManager.ViewManager.TemplateExists | src/Novuso/Component/View/ViewManager.php:128-141 | false without paths or template; otherwise true exactly when some directory holds `template + extension` as a readable file |
| LegacyManager.ViewManager.SetExtension | src/Novuso/Component/View/ViewManager.php:146-154 | stores the legacy normalisation, under which `""` becomes `"."` |
| LegacyManager.ViewManager.AddPath | src/Novuso/Component/View/ViewManager.php:199-211 | the list becomes `PathList.AddPath` of the old list, stays duplicate-free, and holds the path |
| LegacyManager.ViewManager.AddPaths | src/Novuso/Component/View/ViewManager.php:180-194 | the list becomes `PathList.AddPaths` of the old list and stays duplicate-free |
| LegacyManager.ViewManager.HasPath | src/Novuso/Component/View/ViewManager.php:224-227 | true exactly when the path is in the list |
| LegacyManager.ViewManager.ReplacePaths | src/Novuso/Component/View/ViewManager.php:167-175 | the list becomes the given paths without repetitions, first occurrences kept |
| LegacyManager.ViewManager.RemovePath | src/Novuso/Component/View/ViewManager.php:232-240 | the list loses exactly that path and keeps the others in order; nothing changes when the path is absent |
| LegacyManager.ViewManager.ClearPaths | src/Novuso/Component/View/ViewManager.php:245-250 | the list is empty |

## Left out

- Template rendering by Twig and Mustache is not modelled. It is the `render` parameter of `Adapter.ViewAdapter.Render` and `Manager.ViewManager.Render`.
- The real filesystem is not modelled. `is_file`, `is_readable` and `file_get_contents` are lookups in a map, and `DIRECTORY_SEPARATOR` is `/`.
- PHP's loose comparison is not modelled. `addPath` uses loose `in_array`, so `"1"` and `"1.0"` count as the same path there; the model compares strings exactly everywhere, as `hasPath` and `removePath` do.
- Numeric-string array keys are not coerced to integers. `array_merge` does not renumber them either.
- `removePath` uses `unset`, which leaves a gap in the array's integer keys. The model closes the gap; the order of the remaining paths is the same.
- Getters that only return a field (`getTemplate`, `getExtension`, `getPaths`, `getOptions`, `getData`, `getHelpers`) are not separate members. The fields are read directly. `getOption`, `hasOption`, `get`, `has` and `hasPath` are plain functions.
- The fluent `return $this` of every setter is not modelled.
- Exception classes and their message text are not modelled, except for the loader's unknown-template message. Errors are data: the key, the helper name, or the template file and the paths.
- `Adapter.MergedHelpers` follows `array_merge` of PHP 5 and 7: a `helpers` option that is set but is not an array yields null. PHP 8 throws a TypeError there instead.
- The legacy manager's `$data`, `$options` and `$helpers` fields are declared but never used by any of its methods, so they are not modelled.
- The interfaces under `src/Api` and `src/Novuso/Component/View/Api` hold no logic. Their doc comments were used only as contract text.
- `TwigViewAdapter` is modelled only as the `Twig` engine, whose `render` passes options unchanged.
- The test adapters and the vfsStream and Mockery fixtures are not part of this model.
- `Loader.Sprintf` models only the `%%` and `%s` directives. Any other directive gives `Unmodelled`.
- `Loader.LoaderTestFindsNested` covers only the `content/index` half of the loader test. The `layout` half is the same resolution one directory up.
- `Adapter.HelperMergeTest` states what resolution puts under `helpers`. It does not state the HTML that the Mustache engine renders from it.
- `Manager.ViewManager.Render` returns the adapter's loader only as a ghost value. Nothing in PHP returns it.
- `Manager.ViewManager.Render` does not state the loader's cache after rendering. The engine loads the template and its partials through that loader, which fills the cache, and those loads are part of the `render` parameter, not of the model.
- `Adapter.ViewAdapter.Render` does not state the loader's cache after rendering either, for the same reason. `Adapter.ViewAdapter.ResolveOptions` states the cache as the loader is built, when it is still empty.
- `Manager.WrapRender` keeps only the message of the exception it wraps. The exception's code and the previous exception that `ViewRenderException` also receives are not modelled.
- Options, data and helpers are stored as maps, so the insertion order that `getOptions`, `getData` and `getHelpers` return is not modelled. Only the keys and their values are.

## Findings

| source | as written | input that shows it | evidently intended | confidence | as-written member | corrected member |
|---|---|---|---|---|---|---|
| src/Novuso/Component/View/Loader/MustacheFileLoader.php:81 | the resolved file name is concatenated into the `sprintf` format string, so any `%` in a template name is read as a directive | template `%s` with no extension: the format `%s >> paths: [%s]` has two directives and one argument, so `sprintf` fails (PHP 5/7 return false with a warning, giving an empty message; PHP 8 throws ArgumentCountError) | the message is the file name, then ` >> paths: [`, the paths joined by `, `, then `]` | not executed | Loader.AsWrittenLosesMessage | Loader.MustacheFileLoader.Load |
