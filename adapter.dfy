/**
 * A view adapter: the state the manager pushes into it before each render
 * (the six setters of the base adapter) and the option resolution the
 * Mustache adapter performs before handing its options to the engine.
 */
module Adapter {
  import opened Wrappers
  import opened Values
  import opened Loader

  /** Which wrapped template engine an adapter drives. */
  datatype Engine = Twig | Mustache

  /** Everything an adapter hands to its engine. */
  datatype AdapterState = AdapterState(
    template: Option<string>,
    extension: Option<string>,
    paths: seq<string>,
    options: map<string, Value>,
    data: map<string, Value>,
    helpers: map<string, ViewHelper>)

  /**
   * The wrapped engine's rendering of a configured adapter: the output text,
   * or the message of the exception the engine threw.
   */
  type EngineRender = AdapterState -> Result<string, string>

  /** `isset($options[$key])`: present and not `null`. */
  predicate IsSet(options: map<string, Value>, key: string): (b: bool)
    ensures b ==> key in options
    ensures key in options && options[key] == Null ==> !b
  {
    key in options && options[key] != Null
  }

  /** The helper registry as an array value, each helper kept by identity. */
  function HelperValues(helpers: map<string, ViewHelper>): (r: map<string, Value>)
    ensures r.Keys == helpers.Keys
    ensures forall k :: k in helpers ==> r[k] == Object(helpers[k])
  {
    map k | k in helpers :: Object(helpers[k])
  }

  const LoaderKey: string := "loader"
  const PartialsLoaderKey: string := "partials_loader"
  const HelpersKey: string := "helpers"

  /**
   * The helpers option after resolution: the adapter's helpers when the
   * caller set none, otherwise `array_merge` of the caller's array and the
   * adapter's helpers, so that the adapter's helper wins on a shared name. A
   * helpers option that is not an array makes PHP 5's `array_merge` return
   * `null`.
   */
  function MergedHelpers(options: map<string, Value>, helpers: map<string, ViewHelper>): (r: Value)
    ensures !IsSet(options, HelpersKey) ==> r == Array(HelperValues(helpers))
    ensures IsSet(options, HelpersKey) && options[HelpersKey].Array? ==>
      r.Array? &&
      r.entries.Keys == options[HelpersKey].entries.Keys + helpers.Keys &&
      (forall k :: k in helpers ==> r.entries[k] == Object(helpers[k])) &&
      (forall k :: k in options[HelpersKey].entries && k !in helpers ==>
         r.entries[k] == options[HelpersKey].entries[k])
    ensures IsSet(options, HelpersKey) && !options[HelpersKey].Array? ==> r == Null
  {
    var own := HelperValues(helpers);
    if !IsSet(options, HelpersKey) then Array(own)
    else match options[HelpersKey]
      case Array(given) => Array(given + own)
      case _ => Null
  }

  /**
   * `resolveOptions()` with `loader` the loader it constructs: both loader
   * options default to that one loader, the helpers option is merged, and
   * every other option is left as it was.
   */
  function ResolvedOptions(options: map<string, Value>, helpers: map<string, ViewHelper>, loader: Value): (r: map<string, Value>)
    ensures r.Keys == options.Keys + {LoaderKey, PartialsLoaderKey, HelpersKey}
    ensures forall k :: k in options && k != LoaderKey && k != PartialsLoaderKey && k != HelpersKey ==> r[k] == options[k]
    ensures r[LoaderKey] == if IsSet(options, LoaderKey) then options[LoaderKey] else loader
    ensures r[PartialsLoaderKey] == if IsSet(options, PartialsLoaderKey) then options[PartialsLoaderKey] else loader
    ensures r[HelpersKey] == MergedHelpers(options, helpers)
  {
    var withLoader := if IsSet(options, LoaderKey) then options else options[LoaderKey := loader];
    var withPartials :=
      if IsSet(withLoader, PartialsLoaderKey) then withLoader else withLoader[PartialsLoaderKey := loader];
    assert IsSet(withPartials, HelpersKey) == IsSet(options, HelpersKey);
    withPartials[HelpersKey := MergedHelpers(withPartials, helpers)]
  }

  /**
   * When the caller set neither loader option, both name the same loader,
   * so the top-level template and its partials share one cache.
   */
  lemma DefaultLoadersShared(options: map<string, Value>, helpers: map<string, ViewHelper>, loader: Value)
    requires !IsSet(options, LoaderKey) && !IsSet(options, PartialsLoaderKey)
    ensures ResolvedOptions(options, helpers, loader)[LoaderKey]
         == ResolvedOptions(options, helpers, loader)[PartialsLoaderKey]
         == loader
  {
  }

  /**
   * The helper-merge test: a caller helper `lang` and the adapter's helper
   * `layout` both reach the engine.
   */
  lemma HelperMergeTest(lang: Value, layout: ViewHelper, loader: Value)
    ensures var r := ResolvedOptions(map[HelpersKey := Array(map["lang" := lang])], map["layout" := layout], loader);
      r[HelpersKey] == Array(map["lang" := lang, "layout" := Object(layout)])
  {
    var r := ResolvedOptions(map[HelpersKey := Array(map["lang" := lang])], map["layout" := layout], loader);
    assert HelperValues(map["layout" := layout]) == map["layout" := Object(layout)];
  }

  /** An adapter and the state the manager pushes into it. */
  class ViewAdapter {
    const engine: Engine
    var template: Option<string>
    var extension: Option<string>
    var paths: seq<string>
    var options: map<string, Value>
    var data: map<string, Value>
    var helpers: map<string, ViewHelper>

    constructor (engine: Engine)
      ensures this.engine == engine
      ensures template == None && extension == None && paths == []
      ensures options == map[] && data == map[] && helpers == map[]
    {
      this.engine := engine;
      template, extension, paths := None, None, [];
      options, data, helpers := map[], map[], map[];
    }

    function State(): AdapterState
      reads this
    {
      AdapterState(template, extension, paths, options, data, helpers)
    }

    /** `setTemplate($template)`: stored exactly; no other field changes. */
    method SetTemplate(template: Option<string>)
      modifies this`template
      ensures this.template == template
    {
      this.template := template;
    }

    /** `setExtension($extension)`: stored as given, without normalisation. */
    method SetExtension(extension: Option<string>)
      modifies this`extension
      ensures this.extension == extension
    {
      this.extension := extension;
    }

    /** `setPaths($paths)`: the list is replaced wholesale. */
    method SetPaths(paths: seq<string>)
      modifies this`paths
      ensures this.paths == paths
    {
      this.paths := paths;
    }

    /** `setOptions($options)`: the map is replaced wholesale. */
    method SetOptions(options: map<string, Value>)
      modifies this`options
      ensures this.options == options
    {
      this.options := options;
    }

    /** `setData($data)`: the map is replaced wholesale. */
    method SetData(data: map<string, Value>)
      modifies this`data
      ensures this.data == data
    {
      this.data := data;
    }

    /** `setHelpers($helpers)`: the same helper objects, under the same names. */
    method SetHelpers(helpers: map<string, ViewHelper>)
      modifies this`helpers
      ensures this.helpers == helpers
    {
      this.helpers := helpers;
    }

    /**
     * `resolveOptions()` of the Mustache adapter: builds a fresh loader over
     * the adapter's paths and extension, writes the defaults and the merged
     * helpers into the options field step by step, and returns that field.
     */
    method ResolveOptions() returns (r: map<string, Value>, loader: MustacheFileLoader)
      modifies this`options
      ensures fresh(loader) && loader.paths == paths && loader.extension == extension
      ensures loader.templates == map[]
      ensures options == ResolvedOptions(old(options), helpers, Object(loader))
      ensures r == options
    {
      loader := new MustacheFileLoader(paths, extension);
      if !IsSet(options, LoaderKey) {
        options := options[LoaderKey := Object(loader)];
      }
      if !IsSet(options, PartialsLoaderKey) {
        options := options[PartialsLoaderKey := Object(loader)];
      }
      if !IsSet(options, HelpersKey) {
        options := options[HelpersKey := Array(HelperValues(helpers))];
      } else {
        match options[HelpersKey]
        case Array(given) =>
          options := options[HelpersKey := Array(given + HelperValues(helpers))];
        case _ =>
          options := options[HelpersKey := Null];
      }
      r := options;
    }

    /**
     * `render()`: the Mustache adapter resolves its options first; then the
     * wrapped engine renders the configured state.
     */
    method Render(render: EngineRender) returns (r: Result<string, string>, ghost loader: MustacheFileLoader?)
      modifies this`options
      ensures engine == Twig ==> options == old(options) && loader == null
      ensures engine == Mustache ==>
        loader != null && fresh(loader) && loader.paths == paths && loader.extension == extension
        && options == ResolvedOptions(old(options), helpers, Object(loader))
      ensures r == render(State())
    {
      loader := null;
      if engine == Mustache {
        var _, l := ResolveOptions();
        loader := l;
      }
      r := render(State());
    }
  }
}
