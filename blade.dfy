/** The Blade view driver object (drivers/thinkphp5/Blade.php): its
    configuration array, which every non-reading call merges into and then
    re-boots, and the `exists` / `fetch` decisions built on template location.
    The engine the source constructs in `boot` and delegates rendering to
    stays outside the model; `fetch` reports which file it would render. */
module BladeDriver {
  import opened PhpString
  import opened Locator

  /** `TemplateNotFoundException`, carrying the path that was tried. */
  datatype Error = TemplateNotFound(path: string)

  /** The outcome of `fetch`: the file handed to the engine, or the exception. */
  datatype FetchResult = Render(path: string) | Failure(error: Error)

  /** The keys of the default configuration (lines 28-40). */
  const DefaultKeys: set<string> :=
    {"view_base", "view_path", "tpl_begin", "tpl_end", "tpl_raw_begin", "tpl_raw_end",
     "view_cache_path", "view_suffix"}

  /** Lines 28-40: the configuration a new driver starts from. There is no
      `view_depr` among them. */
  function Defaults(env: Env): (c: map<string, string>)
    ensures c.Keys == DefaultKeys && "view_depr" !in c
    ensures c["view_path"] == "" && c["view_suffix"] == "blade.php"
  {
    map["view_base" := "", "view_path" := "",
        "tpl_begin" := "{{", "tpl_end" := "}}",
        "tpl_raw_begin" := "{!!", "tpl_raw_end" := "!!}",
        "view_cache_path" := env.runtimePath + "temp" + env.ds,
        "view_suffix" := "blade.php"]
  }

  /** PHP's `empty($c[k])` on a string-valued array: the key is missing, or its
      value is "" or "0". */
  predicate EmptyEntry(c: map<string, string>, k: string) {
    k !in c || !Truthy(c[k])
  }

  /** The directory `view_path` falls back to: `App::$modulePath . 'view' . DS`. */
  function DefaultViewPath(env: Env): (r: string) {
    env.modulePath + "view" + env.ds
  }

  /** Lines 49-51: an empty `view_path` is replaced by the module's view
      directory; nothing else changes. */
  function WithViewPathDefault(c: map<string, string>, env: Env): (r: map<string, string>)
    ensures r.Keys == c.Keys + {"view_path"}
    ensures Truthy(r["view_path"])
    ensures forall k :: k in c && k != "view_path" ==> r[k] == c[k]
    ensures !EmptyEntry(c, "view_path") ==> r == c
    ensures EmptyEntry(c, "view_path") ==> r["view_path"] == DefaultViewPath(env)
  {
    if EmptyEntry(c, "view_path") then c["view_path" := DefaultViewPath(env)] else c
  }

  /** `$c[$name]`: the value, or `None` for a key that is not there. */
  function Lookup(c: map<string, string>, name: string): (v: Option<string>)
    ensures v.Some? <==> name in c
    ensures v.Some? ==> v.value == c[name]
  {
    if name in c then Some(c[name]) else None
  }

  /** What every call except the reading one leaves behind: the default keys
      are all there, and `view_path` is set. */
  predicate ConfigInvariant(c: map<string, string>) {
    DefaultKeys <= c.Keys && Truthy(c["view_path"])
  }

  /** The entries template location reads. `view_depr` is only read when a
      reference is resolved, and resolving demands it to be non-empty, so a
      missing one is read as "" here. */
  function ViewConfigOf(c: map<string, string>): (v: ViewConfig)
    requires DefaultKeys <= c.Keys
  {
    ViewConfig(c["view_base"], c["view_path"],
               if "view_depr" in c then c["view_depr"] else "",
               c["view_suffix"])
  }

  /** Line 158 reads `view_depr` unguarded: resolution needs a non-empty one. */
  predicate HasDepr(c: map<string, string>) {
    "view_depr" in c && c["view_depr"] != ""
  }

  /** Line 186 with line 192: `array_merge` (later keys win) followed by `boot`. */
  lemma MergeEffect(c: map<string, string>, options: map<string, string>, env: Env)
    requires DefaultKeys <= c.Keys
    ensures var r := WithViewPathDefault(c + options, env);
      ConfigInvariant(r) &&
      r.Keys == c.Keys + options.Keys &&
      (forall k :: k in options && k != "view_path" ==> r[k] == options[k]) &&
      (forall k :: k in c && k !in options && k != "view_path" ==> r[k] == c[k])
  {
  }

  /** Setting a key and reading it back (lines 190 and 188) gives the value
      set, unless it was an empty `view_path`, which `boot` replaces. */
  lemma GetAfterSet(c: map<string, string>, name: string, value: string, env: Env)
    ensures Lookup(WithViewPathDefault(c[name := value], env), name) ==
      if name == "view_path" && !Truthy(value) then Some(DefaultViewPath(env)) else Some(value)
  {
  }

  /** Merging a one-entry array and reading that key back gives the value
      merged, with the same exception for an empty `view_path`. */
  lemma GetAfterMerge(c: map<string, string>, name: string, value: string, env: Env)
    ensures Lookup(WithViewPathDefault(c + map[name := value], env), name) ==
      if name == "view_path" && !Truthy(value) then Some(DefaultViewPath(env)) else Some(value)
  {
  }

  /** `boot` is idempotent on the configuration: a second call changes nothing. */
  lemma BootIdempotent(c: map<string, string>, env: Env)
    ensures WithViewPathDefault(WithViewPathDefault(c, env), env) == WithViewPathDefault(c, env)
  {
  }

  class Blade {
    /** `$this->config` */
    var config: map<string, string>

    ghost predicate Valid()
      reads this
    {
      ConfigInvariant(config)
    }

    /** Lines 41-44: the defaults, merged with the given options, then booted. */
    constructor (options: map<string, string>, env: Env)
      ensures Valid()
      ensures config == WithViewPathDefault(Defaults(env) + options, env)
    {
      config := Defaults(env);
      new;
      Merge(options, env);
    }

    /** The part of `boot` (lines 47-51) that touches the configuration; it is
        only ever called without arguments, so its own merge is a no-op. */
    method Boot(env: Env)
      requires DefaultKeys <= config.Keys
      modifies this
      ensures Valid()
      ensures config == WithViewPathDefault(old(config), env)
    {
      if EmptyEntry(config, "view_path") {
        config := config["view_path" := DefaultViewPath(env)];
      }
    }

    /** `config(array)`, lines 185-186 and 192. */
    method Merge(options: map<string, string>, env: Env)
      requires DefaultKeys <= config.Keys
      modifies this
      ensures Valid()
      ensures config == WithViewPathDefault(old(config) + options, env)
    {
      config := config + options;
      Boot(env);
    }

    /** `config(name)`, lines 187-188: the value of one key; nothing changes. */
    method Get(name: string) returns (v: Option<string>)
      ensures v == Lookup(config, name)
    {
      if name in config {
        v := Some(config[name]);
      } else {
        v := None;
      }
    }

    /** `config(name, value)`, lines 189-190 and 192. */
    method Set(name: string, value: string, env: Env)
      requires DefaultKeys <= config.Keys
      modifies this
      ensures Valid()
      ensures config == WithViewPathDefault(old(config)[name := value], env)
    {
      config := config[name := value];
      Boot(env);
    }

    /** `exists`, lines 86-93: a reference without extension is located first;
        the answer is whether the path names a regular file. */
    method Exists(template: string, req: Request, env: Env, files: set<string>) returns (b: bool)
      requires Valid()
      requires Extension(template) == "" ==> HasDepr(config)
      ensures b <==> Resolve(template, ViewConfigOf(config), req, env) in files
      ensures Extension(template) != "" ==> (b <==> template in files)
      ensures Extension(template) == "" ==>
        (b <==> ParseTemplate(template, ViewConfigOf(config), req, env) in files)
    {
      var path := template;
      if Extension(template) == "" {
        path := ParseTemplate(template, ViewConfigOf(config), req, env);
      }
      b := path in files;
    }

    /** `fetch`, lines 104-114: the options are merged first; then the same
        location as `exists`, and `TemplateNotFound` with the path when it is
        not a regular file. Rendering (line 117) is the engine's. */
    method Fetch(template: string, options: map<string, string>, req: Request, env: Env, files: set<string>)
      returns (r: FetchResult)
      requires Valid()
      requires Extension(template) == "" ==> HasDepr(config + options)
      modifies this
      ensures Valid()
      ensures config == WithViewPathDefault(old(config) + options, env)
      ensures var path := Resolve(template, ViewConfigOf(config), req, env);
        r == if path in files then Render(path) else Failure(TemplateNotFound(path))
    {
      Merge(options, env);
      var path := template;
      if Extension(template) == "" {
        path := ParseTemplate(template, ViewConfigOf(config), req, env);
      }
      if path !in files {
        return Failure(TemplateNotFound(path));
      }
      r := Render(path);
    }

    /** `display`, lines 129-133: the options are merged, and the content is
        handed to the engine by name as it is, without location. */
    method Display(content: string, options: map<string, string>, env: Env) returns (name: string)
      requires Valid()
      modifies this
      ensures Valid()
      ensures config == WithViewPathDefault(old(config) + options, env)
      ensures name == content
    {
      Merge(options, env);
      name := content;
    }
  }
}
