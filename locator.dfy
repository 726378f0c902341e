/** Template location of the Blade view driver (`parseTemplate`): a symbolic
    template reference such as `module@controller/action`, `/absolute/name`,
    `name` or "" is turned into a file path. Everything the source reads from
    the request singleton, from constants and from the driver's configuration
    arrives here as an explicit parameter, so the resolution is a pure function. */
module Locator {
  import opened PhpString

  /** Constants and statics: `APP_PATH`, `DS`, `App::$modulePath`, `RUNTIME_PATH`. */
  datatype Env = Env(appPath: string, ds: string, modulePath: string, runtimePath: string)

  /** The current request: `module()`, the controller name as returned by
      `Loader::parseName(controller())`, and `action()`. */
  datatype Request = Request(moduleName: string, controller: string, action: string)

  /** The configuration entries `view_base`, `view_path`, `view_depr`, `view_suffix`. */
  datatype ViewConfig = ViewConfig(viewBase: string, viewPath: string, viewDepr: string, viewSuffix: string)

  /** Lines 146-149: a reference with an `@` at an index of at least one names a
      module (the text before the first `@`) and a template (the next piece);
      any further pieces are dropped. */
  function SplitModule(t: string): (r: (Option<string>, string))
    ensures r.0.None? <==> '@' !in t || t[0] == '@'
    ensures r.0.None? ==> r.1 == t
    ensures r.0.Some? ==>
      r.0.value != "" && '@' !in r.0.value && '@' !in r.1 && r.0.value + "@" + r.1 <= t
  {
    match IndexOf(t, '@')
    case None => (None, t)
    case Some(i) =>
      if i == 0 then (None, t)
      else
        var pieces := Explode('@', t);
        var rest := t[i + 1..];
        assert pieces == [t[..i]] + Explode('@', rest);
        ExplodeHead('@', rest);
        assert t == t[..i] + "@" + rest;
        (Some(pieces[0]), pieces[1])
  }

  /** Lines 150-156: the directory the template name is appended to. */
  function BaseDir(mod: Option<string>, cfg: ViewConfig, req: Request, env: Env): (r: string)
    ensures Truthy(cfg.viewBase) ==> cfg.viewBase <= r
    ensures !Truthy(cfg.viewBase) && mod.None? ==> r == cfg.viewPath
    ensures !Truthy(cfg.viewBase) && mod.Some? ==> env.appPath + mod.value + env.ds <= r
  {
    if Truthy(cfg.viewBase) then
      var m := if mod.Some? then mod.value else req.moduleName;
      cfg.viewBase + (if Truthy(m) then m + env.ds else "")
    else if mod.Some? then
      env.appPath + mod.value + env.ds + "view" + env.ds
    else
      cfg.viewPath
  }

  /** `str_replace(['/', ':'], $depr, $t)`: first every `/`, then every `:`. */
  function ReplaceSeparators(t: string, depr: string): (r: string)
    ensures '/' !in t && ':' !in t ==> r == t
    ensures '/' !in depr && ':' !in depr ==> '/' !in r && ':' !in r
  {
    ReplaceChar(ReplaceChar(t, '/', depr), ':', depr)
  }

  /** A dotted controller name as a directory path: dots become `DS`. */
  function ControllerPath(controller: string, ds: string): (r: string)
    ensures '.' !in controller ==> r == controller
    ensures '.' !in ds ==> '.' !in r
  {
    ReplaceChar(controller, '.', ds)
  }

  /** Lines 158-172: the template name, relative to the base directory. */
  function TemplateName(t: string, depr: string, req: Request, ds: string): (r: string)
    ensures StartsWith(t, '/') ==> r == ReplaceSeparators(t[1..], depr)
    ensures !Truthy(req.controller) ==>
      r == ReplaceSeparators(if StartsWith(t, '/') then t[1..] else t, depr)
  {
    if !StartsWith(t, '/') then
      var name := ReplaceSeparators(t, depr);
      if Truthy(req.controller) then
        if name == "" then ControllerPath(req.controller, ds) + depr + req.action
        else if !Contains(name, depr) then ControllerPath(req.controller, ds) + depr + name
        else name
      else name
    else
      ReplaceSeparators(t[1..], depr)
  }

  /** Line 173's suffix: a dot, then `view_suffix` without its leading dots. */
  function Suffix(cfg: ViewConfig): (r: string)
    ensures r != [] && r[0] == '.' && (|r| > 1 ==> r[1] != '.')
    ensures |r| <= 1 + |cfg.viewSuffix|
  {
    "." + LTrim(cfg.viewSuffix, '.')
  }

  /** `parseTemplate`, lines 141-174. Line 158 reads `view_depr` without a
      default, so a non-empty one is demanded. */
  function ParseTemplate(t: string, cfg: ViewConfig, req: Request, env: Env): (r: string)
    requires cfg.viewDepr != ""
    ensures BaseDir(SplitModule(t).0, cfg, req, env) <= r
    ensures |BaseDir(SplitModule(t).0, cfg, req, env)| + |Suffix(cfg)| <= |r|
  {
    var (mod, name) := SplitModule(t);
    BaseDir(mod, cfg, req, env) + LTrim(TemplateName(name, cfg.viewDepr, req, env.ds), '/') + Suffix(cfg)
  }

  /** Lines 88-91 and 107-110: only a reference without an extension is
      resolved; one with an extension is taken as a path already. */
  function Resolve(t: string, cfg: ViewConfig, req: Request, env: Env): (r: string)
    requires Extension(t) == "" ==> cfg.viewDepr != ""
    ensures Extension(t) != "" ==> r == t
    ensures Extension(t) == "" ==> BaseDir(SplitModule(t).0, cfg, req, env) <= r
  {
    if Extension(t) == "" then ParseTemplate(t, cfg, req, env) else t
  }
  /** Cross-module split, lines 146-149: an `@` at index i >= 1 that is the
      first `@` makes the text before it the module and the `@`-free text after
      it, up to the next `@` or the end, the template. */
  lemma CrossModuleSplit(t: string, i: nat)
    requires 1 <= i < |t| && t[i] == '@' && '@' !in t[..i]
    ensures SplitModule(t).0 == Some(t[..i])
    ensures var name := SplitModule(t).1;
      '@' !in name && t[..i + 1] + name <= t &&
      (i + 1 + |name| < |t| ==> t[i + 1 + |name|] == '@')
  {
    var rest := t[i + 1..];
    SplitAt(t, i);
    ExplodeHead('@', rest);
    var name := Explode('@', rest)[0];
    assert t == t[..i + 1] + rest;
    if i + 1 + |name| < |t| {
      assert t[i + 1 + |name|] == rest[|name|];
    }
  }

  /** The split of lines 146-148 at the first `@`, at index i >= 1. */
  lemma SplitAt(t: string, i: nat)
    requires 1 <= i < |t| && t[i] == '@' && '@' !in t[..i]
    ensures SplitModule(t) == (Some(t[..i]), Explode('@', t[i + 1..])[0])
  {
    var rest := t[i + 1..];
    assert t == t[..i] + ['@'] + rest;
    IndexOfAfter(t[..i], '@', rest);
    ExplodeAt(t[..i], '@', rest);
  }

  /** Lines 146-149: a reference without `@`, or with `@` only at its first
      position, has no module and is left whole. */
  lemma NoModuleSplit(t: string)
    requires '@' !in t || t[0] == '@'
    ensures SplitModule(t) == (None, t)
  {
  }

  /** A reference `m@n` with no `@` in `m` or `n` names module `m` and template `n`. */
  lemma SplitOfModuleReference(m: string, n: string)
    requires m != "" && '@' !in m && '@' !in n
    ensures SplitModule(m + "@" + n) == (Some(m), n)
  {
    IndexOfAfter(m, '@', n);
    ExplodeAt(m, '@', n);
    ExplodeWhole('@', n);
  }

  /** Cross-module references (line 155, and line 152 under a view base): `m@n`
      resolves as `n` would with the module forced to `m`. Under a view base
      that means the request's module replaced by `m`; without one, `view_path`
      replaced by the module's own view directory under `APP_PATH`. */
  lemma CrossModuleAsForcedModule(m: string, n: string, cfg: ViewConfig, req: Request, env: Env)
    requires m != "" && '@' !in m && '@' !in n && cfg.viewDepr != ""
    ensures Truthy(cfg.viewBase) ==>
      ParseTemplate(m + "@" + n, cfg, req, env) == ParseTemplate(n, cfg, req.(moduleName := m), env)
    ensures !Truthy(cfg.viewBase) ==>
      ParseTemplate(m + "@" + n, cfg, req, env) ==
      ParseTemplate(n, cfg.(viewPath := env.appPath + m + env.ds + "view" + env.ds), req, env)
  {
    SplitOfModuleReference(m, n);
    NoModuleSplit(n);
  }

  /** Line 148 keeps only the first two pieces of `explode`: whatever follows
      a second `@` is ignored. */
  lemma ExtraPiecesDropped(m: string, n: string, x: string, cfg: ViewConfig, req: Request, env: Env)
    requires m != "" && '@' !in m && '@' !in n && cfg.viewDepr != ""
    ensures ParseTemplate(m + "@" + n + "@" + x, cfg, req, env) == ParseTemplate(m + "@" + n, cfg, req, env)
  {
    var rest := n + "@" + x;
    assert m + "@" + n + "@" + x == m + ['@'] + rest;
    IndexOfAfter(m, '@', rest);
    ExplodeAt(m, '@', rest);
    ExplodeAt(n, '@', x);
    assert SplitModule(m + "@" + n + "@" + x) == (Some(m), n);
    SplitOfModuleReference(m, n);
  }

  /** Base directory, lines 150-156, for a reference that names no module:
      `view_base` followed by the request's module and `DS` only when that
      module is truthy, or else `view_path`; the rest of the path is the
      template name without leading `/`, then the suffix. */
  lemma BaseWithoutModule(t: string, cfg: ViewConfig, req: Request, env: Env)
    requires ('@' !in t || t[0] == '@') && cfg.viewDepr != ""
    ensures ParseTemplate(t, cfg, req, env) ==
      (if Truthy(cfg.viewBase) then
         cfg.viewBase + (if Truthy(req.moduleName) then req.moduleName + env.ds else "")
       else cfg.viewPath) +
      LTrim(TemplateName(t, cfg.viewDepr, req, env.ds), '/') + Suffix(cfg)
  {
    NoModuleSplit(t);
  }

  /** Base directory, lines 150-156, for a reference `m@...`: `view_base`
      followed by `m` and `DS` only when `m` is truthy (the request's module
      plays no part), or else the module's own view directory
      `APP_PATH . m . DS . 'view' . DS`; then the template piece after the
      `@`, without leading `/`, and the suffix. */
  lemma BaseWithModule(t: string, i: nat, cfg: ViewConfig, req: Request, env: Env)
    requires 1 <= i < |t| && t[i] == '@' && '@' !in t[..i] && cfg.viewDepr != ""
    ensures ParseTemplate(t, cfg, req, env) ==
      (if Truthy(cfg.viewBase) then
         cfg.viewBase + (if Truthy(t[..i]) then t[..i] + env.ds else "")
       else env.appPath + t[..i] + env.ds + "view" + env.ds) +
      LTrim(TemplateName(Explode('@', t[i + 1..])[0], cfg.viewDepr, req, env.ds), '/') + Suffix(cfg)
  {
    SplitAt(t, i);
  }

  /** Absolute references, lines 170-171: a reference starting with `/`
      ignores the controller and the action; its template is the rest of the
      reference with `/` and `:` turned into `view_depr`. Only the request's
      module, and only under a view base, can still matter. */
  lemma AbsoluteReference(t: string, cfg: ViewConfig, req1: Request, req2: Request, env: Env)
    requires StartsWith(t, '/') && '@' !in t && cfg.viewDepr != ""
    requires req1.moduleName == req2.moduleName || !Truthy(cfg.viewBase)
    ensures ParseTemplate(t, cfg, req1, env) == ParseTemplate(t, cfg, req2, env)
    ensures ParseTemplate(t, cfg, req1, env) ==
      BaseDir(None, cfg, req1, env) + LTrim(ReplaceSeparators(t[1..], cfg.viewDepr), '/') + Suffix(cfg)
  {
    NoModuleSplit(t);
  }

  /** Empty reference, lines 163-165: with a truthy controller it names the
      current action's template, `controller . depr . action`, where the dots
      of the controller become `DS`. */
  lemma EmptyReference(cfg: ViewConfig, req: Request, env: Env)
    requires Truthy(req.controller) && cfg.viewDepr != ""
    ensures ParseTemplate("", cfg, req, env) ==
      BaseDir(None, cfg, req, env) +
      LTrim(ControllerPath(req.controller, env.ds) + cfg.viewDepr + req.action, '/') + Suffix(cfg)
  {
    NoModuleSplit("");
  }

  /** Bare names, lines 159-169: a relative name without `view_depr` is put
      under the controller's directory; one that already has a `view_depr`,
      or any name when the controller is falsy, is kept as it is. */
  lemma BareName(t: string, depr: string, req: Request, ds: string)
    requires !StartsWith(t, '/') && depr != "" && ReplaceSeparators(t, depr) != ""
    ensures var name := ReplaceSeparators(t, depr);
      TemplateName(t, depr, req, ds) ==
        if Truthy(req.controller) && !Contains(name, depr) then ControllerPath(req.controller, ds) + depr + name
        else name
  {
  }

  /** Lines 159-169: with a truthy controller, every relative reference ends
      up with at least one `view_depr` in its name, before line 173 trims its
      leading `/`. */
  lemma RelativeNameHasSeparator(t: string, depr: string, req: Request, ds: string)
    requires !StartsWith(t, '/') && depr != "" && Truthy(req.controller)
    ensures Contains(TemplateName(t, depr, req, ds), depr)
  {
    var name := ReplaceSeparators(t, depr);
    var dir := ControllerPath(req.controller, ds);
    if name == "" {
      ContainsInfix(dir, depr, req.action);
    } else if !Contains(name, depr) {
      ContainsInfix(dir, depr, name);
    }
  }

  /** A plain cross-module reference `m@n` under a view base: the module is a
      directory below `view_base`; the name `n` is put under the controller's
      directory when the controller is truthy, and stays bare otherwise. */
  lemma ModuleUnderViewBase(m: string, n: string, cfg: ViewConfig, req: Request, env: Env)
    requires Truthy(cfg.viewBase) && Truthy(m) && '@' !in m
    requires n != "" && '@' !in n && '/' !in n && ':' !in n && !Contains(n, cfg.viewDepr)
    requires cfg.viewDepr != ""
    ensures !Truthy(req.controller) ==>
      ParseTemplate(m + "@" + n, cfg, req, env) == cfg.viewBase + m + env.ds + n + Suffix(cfg)
    ensures Truthy(req.controller) ==>
      ParseTemplate(m + "@" + n, cfg, req, env) ==
      cfg.viewBase + m + env.ds +
      LTrim(ControllerPath(req.controller, env.ds) + cfg.viewDepr + n, '/') + Suffix(cfg)
  {
    SplitOfModuleReference(m, n);
    var t := m + "@" + n;
    assert ParseTemplate(t, cfg, req, env) ==
      BaseDir(Some(m), cfg, req, env) + LTrim(TemplateName(n, cfg.viewDepr, req, env.ds), '/') + Suffix(cfg);
    assert BaseDir(Some(m), cfg, req, env) == cfg.viewBase + m + env.ds;
    assert ReplaceSeparators(n, cfg.viewDepr) == n;
    if Truthy(req.controller) {
      assert TemplateName(n, cfg.viewDepr, req, env.ds) == ControllerPath(req.controller, env.ds) + cfg.viewDepr + n;
    } else {
      assert TemplateName(n, cfg.viewDepr, req, env.ds) == n;
      assert LTrim(n, '/') == n;
    }
  }

  /** Result shape, line 173: base directory, then the name without leading
      `/`, then `.` and the suffix without its leading dots. */
  lemma ResultShape(t: string, cfg: ViewConfig, req: Request, env: Env)
    requires cfg.viewDepr != ""
    ensures var r := ParseTemplate(t, cfg, req, env);
      var base := BaseDir(SplitModule(t).0, cfg, req, env);
      var suffix := LTrim(cfg.viewSuffix, '.');
      |base| + 1 + |suffix| <= |r| && base <= r &&
      r[|r| - |suffix| - 1] == '.' && r[|r| - |suffix|..] == suffix &&
      (suffix == [] || suffix[0] != '.') &&
      (|base| + 1 + |suffix| < |r| ==> r[|base|] != '/')
  {
    var r := ParseTemplate(t, cfg, req, env);
    var base := BaseDir(SplitModule(t).0, cfg, req, env);
    var name := LTrim(TemplateName(SplitModule(t).1, cfg.viewDepr, req, env.ds), '/');
    var suffix := LTrim(cfg.viewSuffix, '.');
    assert r == base + name + ("." + suffix);
    if |base| + 1 + |suffix| < |r| {
      assert r[|base|] == name[0];
    }
  }

  /** A resolved path has an extension when the suffix is a proper one: so
      resolving it again (lines 88 and 107) leaves it as it is. */
  lemma ResolvedHasExtension(t: string, cfg: ViewConfig, req: Request, env: Env)
    requires cfg.viewDepr != ""
    requires var s := LTrim(cfg.viewSuffix, '.'); s != "" && '/' !in s && s[|s| - 1] != '.'
    ensures Extension(ParseTemplate(t, cfg, req, env)) != ""
    ensures Resolve(ParseTemplate(t, cfg, req, env), cfg, req, env) == ParseTemplate(t, cfg, req, env)
  {
    var s := LTrim(cfg.viewSuffix, '.');
    var dir := BaseDir(SplitModule(t).0, cfg, req, env) +
      LTrim(TemplateName(SplitModule(t).1, cfg.viewDepr, req, env.ds), '/');
    var r := ParseTemplate(t, cfg, req, env);
    assert r == dir + (['.'] + s);
    ExtensionAfterDot(dir, s);
  }
}

/** Worked examples of the resolution rules on concrete configurations. */
module LocatorExamples {
  import opened PhpString
  import opened Locator

  /** An empty reference with a flat `view_path` and a controller without
      dots: `view_path . controller . depr . action . suffix`. */
  lemma EmptyUnderViewPath(cfg: ViewConfig, req: Request, env: Env)
    requires !Truthy(cfg.viewBase) && cfg.viewDepr != ""
    requires Truthy(req.controller) && '.' !in req.controller && req.controller[0] != '/'
    ensures ParseTemplate("", cfg, req, env) ==
      cfg.viewPath + (req.controller + cfg.viewDepr + req.action) + Suffix(cfg)
  {
    EmptyReference(cfg, req, env);
    var name := req.controller + cfg.viewDepr + req.action;
    assert name[0] == req.controller[0];
  }

  /** An empty reference with a flat `view_path` names the current action. */
  lemma ExampleEmpty(cfg: ViewConfig, req: Request, env: Env)
    requires cfg == ViewConfig("", "/app/view/", "/", "html")
    requires req == Request("", "index", "index")
    ensures ParseTemplate("", cfg, req, env) == "/app/view/index/index.html"
  {
    EmptyUnderViewPath(cfg, req, env);
    assert Suffix(cfg) == ".html" by {
      assert cfg.viewSuffix[0] == 'h';
    }
  }
}
