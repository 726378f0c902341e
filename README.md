# Blade view driver for ThinkPHP 5: template location and configuration

This project models the ThinkPHP 5 view driver that binds the Xiaoler Blade template engine
into the framework (`drivers/thinkphp5/Blade.php`). The driver does two things of its own.
It keeps a configuration array that each call merges into and then re-boots. It also maps a
symbolic template reference to a file path.

The reference forms are:

- `module@name`: a cross-module reference;
- `/name`: an absolute reference;
- `name`: a relative reference;
- `""`: the current controller and action.

Everything else is delegated to the engine.

Files:

- `php.dfy`, module `PhpString`: the PHP builtins the driver relies on, each specified by what it
  computes. They are `strpos` (`IndexOf`, `StartsWith`, `Contains`), `explode` (`Explode`, with
  `Implode` as its inverse), single-character `str_replace` (`ReplaceChar`), `ltrim` (`LTrim`) and
  `pathinfo(..., PATHINFO_EXTENSION)` (`Extension`, via `Basename` and `AfterLast`). PHP string
  truthiness is `Truthy`: only `""` and `"0"` are false.
- `locator.dfy`, module `Locator`: `parseTemplate` (lines 141-174) as pure functions.
  `SplitModule` covers lines 146-149. `BaseDir` covers lines 150-156. `TemplateName` covers
  lines 158-172. `ParseTemplate` assembles the path as on line 173. `Resolve` is the "locate
  only when there is no extension" rule of `exists` and `fetch`. The request singleton,
  `Loader::parseName`, the constants `APP_PATH`, `DS` and `RUNTIME_PATH`, and the static
  `App::$modulePath` become the parameters `Request` and `Env`. The configuration entries
  `view_base`, `view_path`, `view_depr` and `view_suffix` become `ViewConfig`. Module
  `LocatorExamples` holds one worked example.
- `blade.dfy`, module `BladeDriver`: class `Blade`, whose `map<string, string>` field `config`
  is `$this->config`. Its methods are the constructor, `Boot` (the configuration part of `boot`),
  `Merge` / `Get` / `Set` (the three forms of `config`), `Exists`, `Fetch` and `Display`.
  The filesystem is an abstract `set<string>` of regular files.

Points where the code decides something worth knowing:

- `strpos($template, '@')` is used as a boolean. An `@` at index 0 therefore does not split.
  `list(...) = explode(...)` keeps only the first two pieces.
- Under a `view_base`, the base directory uses the request's module even for an absolute
  reference. An absolute reference without `@` therefore depends on the request's module, though
  never on its controller or action (`AbsoluteReference`). Only without a `view_base` does it
  depend on the configuration alone. A reference such as `/m@n` is not absolute in this sense:
  its `@` is past index 0, so it splits into module `/m` and the relative name `n`. With a truthy
  controller, that name is put under the controller's directory unless it already contains
  `view_depr` after `/` and `:` are replaced (`BareName`): `/m@a/b` keeps `a<depr>b`.
- Without a `view_base`, `m@n` replaces `view_path` with `APP_PATH . m . DS . 'view' . DS`.
  Under a `view_base`, it replaces the request's module with `m` (`CrossModuleAsForcedModule`).
- A bare name is still put under the controller's directory in a cross-module reference. So
  `user@profile` under view base `/views/` resolves to `/views/user/profile.<suffix>` only when
  the controller is falsy. With a truthy controller it resolves to
  `/views/user/<controller>/profile.<suffix>` (`ModuleUnderViewBase`).
- Reading back a key right after setting it gives the value set. The one exception is an empty
  or `"0"` `view_path`, which `boot` replaces with `App::$modulePath . 'view' . DS`
  (`GetAfterSet`, `GetAfterMerge`).
- This version of `boot` does not shard the cache directory. It only creates it, which is I/O
  and left out.

## Model

| member | source | states |
|---|---|---|
| PhpString.Truthy | drivers/thinkphp5/Blade.php:150 | The definition of PHP string truthiness used by the `if` tests on lines 146, 150, 153 and 162: only `""` and `"0"` are false. |
| PhpString.StartsWith | drivers/thinkphp5/Blade.php:159 | The definition of `0 === strpos($t, '/')`: the string is non-empty and its first character is the given one. |
| PhpString.Contains | drivers/thinkphp5/Blade.php:166 | The definition of `strpos($t, $depr) !== false`. `ContainsAt` proves it equivalent to a positional reading, and `ContainsInfix` shows that an infix is found. |
| PhpString.Join | drivers/thinkphp5/Blade.php:160 | `implode` with a string glue: the first piece is a prefix of the result. It is the reference side of `ReplaceCharByExplode`. |
| PhpString.AfterLast | drivers/thinkphp5/Blade.php:88 | The text after the last occurrence of a character is `None` exactly when the character does not occur. Otherwise it is shorter than the input and free of that character. `AfterLastConcat` states how it splits over a concatenation. |
| PhpString.Basename | drivers/thinkphp5/Blade.php:88 | The file-name part of a path, used by `pathinfo`, contains no `/` and is no longer than the path. |
| PhpString.ExtensionAfterDot | drivers/thinkphp5/Blade.php:88 | A path ending in `.` followed by a non-empty text with no `/` and no trailing `.` has a non-empty extension. |
| PhpString.IndexOf | drivers/thinkphp5/Blade.php:146 | `strpos` with a one-character needle. It returns the index of the first occurrence, with no earlier one, and `None` exactly when the character does not occur. |
| PhpString.Explode | drivers/thinkphp5/Blade.php:148 | `explode` returns at least one piece. It returns at least two when the separator occurs. No piece contains the separator, and joining the pieces with it gives back the input. |
| PhpString.ExplodeHead | drivers/thinkphp5/Blade.php:148 | The first piece of `explode` is the separator-free prefix that ends at the first separator or at the end. |
| PhpString.ExplodeAt | drivers/thinkphp5/Blade.php:148 | `explode` splits at the first separator and continues on the rest. |
| PhpString.ReplaceChar | drivers/thinkphp5/Blade.php:160 | `str_replace` of one character leaves a string without it unchanged. It leaves no occurrence behind when the replacement does not contain it. Every character of the result comes from the input or from the replacement. |
| PhpString.ReplaceCharConcat | drivers/thinkphp5/Blade.php:160 | Replacing in a concatenation is replacing in each part and concatenating, so the characters keep their order. |
| PhpString.ReplaceCharOne | drivers/thinkphp5/Blade.php:160 | A single `c` becomes the replacement; any other character is kept. |
| PhpString.ReplaceCharByExplode | drivers/thinkphp5/Blade.php:160-171 | `str_replace(c, rep, s)` equals `implode(rep, explode(c, s))`: the text between occurrences of `c` is kept in order and each `c` becomes `rep`. |
| PhpString.LTrim | drivers/thinkphp5/Blade.php:173 | `ltrim` with one character gives a result that is no longer than the input and does not start with that character. |
| PhpString.LTrimRemovesOnly | drivers/thinkphp5/Blade.php:173 | `ltrim` keeps a suffix of its argument and removes nothing but a leading run of the trimmed character. |
| PhpString.Extension | drivers/thinkphp5/Blade.php:88 | `pathinfo(..., PATHINFO_EXTENSION)` contains no dot. It is non-empty only when the file name contains a dot. |
| PhpString.ExplodeImplode | drivers/thinkphp5/Blade.php:148 | `explode` undoes `implode` when no piece contains the separator. |
| PhpString.ContainsAt | drivers/thinkphp5/Blade.php:166 | The recursive `Contains` holds exactly when there is an index where the needle starts. This is the meaning of `strpos(...) !== false`. |
| PhpString.ContainsInfix | drivers/thinkphp5/Blade.php:166 | `strpos` finds a needle that is written out inside a string. |
| Locator.SplitModule | drivers/thinkphp5/Blade.php:146-149 | The definition of the `@` split. There is no module exactly when the reference has no `@` or starts with one; the reference is then kept whole. Otherwise the module is non-empty and `@`-free, the template is `@`-free, and module, `@` and template are a prefix of the reference. `CrossModuleSplit`, `SplitAt`, `NoModuleSplit`, `SplitOfModuleReference` and `ExtraPiecesDropped` pin it down. |
| Locator.BaseDir | drivers/thinkphp5/Blade.php:150-156 | The definition of the base directory. Under a truthy `view_base` it starts with it. Without one, it is `view_path` when no module is named, and it starts with `APP_PATH . m . DS` for module `m`. `BaseWithoutModule` and `BaseWithModule` give the exact path. |
| Locator.ReplaceSeparators | drivers/thinkphp5/Blade.php:160 | A name without `/` and `:` is unchanged. With a separator that has neither, the result has neither. `ReplaceCharByExplode` pins each step. |
| Locator.ControllerPath | drivers/thinkphp5/Blade.php:165 | A controller name without dots is unchanged. With a `DS` that has no dot, the result has no dot. |
| Locator.TemplateName | drivers/thinkphp5/Blade.php:158-172 | The definition of the template name. An absolute reference gives its rest with `/` and `:` replaced. With a falsy controller, every name is only replaced. `EmptyReference`, `BareName` and `RelativeNameHasSeparator` give the truthy-controller cases. |
| Locator.Suffix | drivers/thinkphp5/Blade.php:173 | The suffix starts with one dot, is not followed by a second one, and is at most one character longer than `view_suffix`. |
| Locator.ParseTemplate | drivers/thinkphp5/Blade.php:141-174 | The definition of `parseTemplate`: the path starts with the base directory and is at least as long as base and suffix together. `ResultShape`, `CrossModuleAsForcedModule`, `AbsoluteReference`, `BaseWithoutModule`, `BaseWithModule` and `ResolvedHasExtension` state the rest. |
| Locator.Resolve | drivers/thinkphp5/Blade.php:88-91 | A reference with an extension is taken as is. One without is located and starts with its base directory. |
| Locator.CrossModuleSplit | drivers/thinkphp5/Blade.php:146-149 | Suppose the first `@` is at index i >= 1. Then the module is the text before it. The template is the `@`-free text after it, up to the next `@` or the end. |
| Locator.SplitAt | drivers/thinkphp5/Blade.php:146-148 | The split at the first `@` (index >= 1) gives the prefix and the first `explode` piece of the rest. |
| Locator.NoModuleSplit | drivers/thinkphp5/Blade.php:146 | A reference without `@`, or with an `@` at index 0, names no module and is kept whole. |
| Locator.SplitOfModuleReference | drivers/thinkphp5/Blade.php:146-149 | `m@n` with `m` non-empty and neither part containing `@` splits into module `m` and template `n`. |
| Locator.ExtraPiecesDropped | drivers/thinkphp5/Blade.php:148 | `m@n@x` resolves exactly as `m@n` does: pieces after the second one are ignored. |
| Locator.CrossModuleAsForcedModule | drivers/thinkphp5/Blade.php:146-156 | Under a view base, `m@n` resolves as `n` does with the request's module replaced by `m`. Without a view base, it resolves as `n` does with `view_path` replaced by `APP_PATH . m . DS . 'view' . DS`. |
| Locator.BaseWithoutModule | drivers/thinkphp5/Blade.php:150-156 | With no module in the reference, the path is exactly: `view_base`, then the request's module and `DS` only when that module is truthy (nothing for `""` or `"0"`); without a truthy `view_base`, `view_path` instead; then the template name without leading `/`, then the suffix. |
| Locator.BaseWithModule | drivers/thinkphp5/Blade.php:150-156 | With module `m` (the text before the first `@`), the path is exactly: `view_base`, then `m . DS` only when `m` is truthy, and never the request's module; without a truthy `view_base`, `APP_PATH . m . DS . 'view' . DS` instead; then the name from the piece after the `@`, without leading `/`, then the suffix. |
| Locator.AbsoluteReference | drivers/thinkphp5/Blade.php:170-171 | A reference starting with `/` and containing no `@` gives the same path for any controller and action, and for any module when there is no view base. Its name is the rest of the reference with `/` and `:` replaced by `view_depr`. |
| Locator.EmptyReference | drivers/thinkphp5/Blade.php:163-165 | With a truthy controller, `""` names `controller . depr . action`, where the controller's dots become `DS`. |
| Locator.BareName | drivers/thinkphp5/Blade.php:159-169 | A relative non-empty name (after `/`,`:` become `view_depr`) gets the controller directory and `view_depr` in front only when the controller is truthy and the name has no `view_depr`. Otherwise it is kept. |
| Locator.RelativeNameHasSeparator | drivers/thinkphp5/Blade.php:162-168 | With a truthy controller, every relative reference's name contains `view_depr`. |
| Locator.ModuleUnderViewBase | drivers/thinkphp5/Blade.php:146-169 | Under a view base, a plain `m@n` resolves to `view_base . m . DS . n . suffix` when the controller is falsy. When the controller is truthy, the controller directory comes in front of `n`. |
| Locator.ResultShape | drivers/thinkphp5/Blade.php:173 | The path is the base directory, then a name that does not start with `/`, then `.`, then `view_suffix` with its leading dots removed. |
| Locator.ResolvedHasExtension | drivers/thinkphp5/Blade.php:173 | With a proper suffix (non-empty after trimming dots, no `/`, not ending in `.`), every located path has an extension. Locating it again therefore leaves it unchanged. |
| LocatorExamples.EmptyUnderViewPath | drivers/thinkphp5/Blade.php:163-165 | Without a view base and with a truthy dot-free controller, `""` resolves to `view_path . controller . depr . action . suffix`. |
| LocatorExamples.ExampleEmpty | drivers/thinkphp5/Blade.php:163-165 | Take `view_path` `/app/view/`, depr `/`, suffix `html`, and controller and action both `index`. Then `""` resolves to `/app/view/index/index.html`. |
| BladeDriver.EmptyEntry | drivers/thinkphp5/Blade.php:49 | The definition of `empty($c[k])` on a string array: the key is missing or its value is falsy. |
| BladeDriver.DefaultViewPath | drivers/thinkphp5/Blade.php:50 | The definition of `App::$modulePath . 'view' . DS`, the fallback `view_path`. `WithViewPathDefault` and `GetAfterSet` show it is the value `boot` writes. |
| BladeDriver.HasDepr | drivers/thinkphp5/Blade.php:158 | The definition of the precondition that line 158's unguarded read of `view_depr` gives a non-empty separator. |
| BladeDriver.Defaults | drivers/thinkphp5/Blade.php:28-40 | The default keys are exactly those of lines 28-40. They do not include `view_depr`. `view_path` is empty and the suffix is `blade.php`. |
| BladeDriver.WithViewPathDefault | drivers/thinkphp5/Blade.php:49-51 | After `boot`, `view_path` is truthy, `view_path` is present, and every other key keeps its value. A configuration with a truthy `view_path` is unchanged. One with an empty `view_path` gets exactly `App::$modulePath . 'view' . DS`. |
| BladeDriver.Lookup | drivers/thinkphp5/Blade.php:188 | Reading a key gives a value exactly when the key is present, and that value is the one stored under it. |
| BladeDriver.MergeEffect | drivers/thinkphp5/Blade.php:185-192 | A merge followed by `boot` keeps the invariant. The keys are the union. Merged keys take the new values and other keys keep theirs, with `view_path` as the exception. |
| BladeDriver.GetAfterSet | drivers/thinkphp5/Blade.php:188-192 | Setting a key and reading it back gives the value set. A falsy `view_path` reads back as the module's view directory. |
| BladeDriver.GetAfterMerge | drivers/thinkphp5/Blade.php:185-192 | Merging `{k: v}` and reading `k` back gives `v`, with the same `view_path` exception. |
| BladeDriver.BootIdempotent | drivers/thinkphp5/Blade.php:49-51 | Booting twice leaves the same configuration as booting once. |
| BladeDriver.Blade.constructor | drivers/thinkphp5/Blade.php:41-44 | A new driver holds the defaults merged with the options and then booted. |
| BladeDriver.Blade.Boot | drivers/thinkphp5/Blade.php:47-51 | `boot` replaces an empty `view_path` with the module's view directory and changes nothing else. |
| BladeDriver.Blade.Merge | drivers/thinkphp5/Blade.php:185-192 | `config(array)`: the new configuration is the old one merged with the array (later keys win), then booted. |
| BladeDriver.Blade.Get | drivers/thinkphp5/Blade.php:187-188 | `config(name)` returns the read `Lookup` defines on the current configuration: the value under `name`, or nothing for a missing key. It changes nothing. |
| BladeDriver.Blade.Set | drivers/thinkphp5/Blade.php:189-192 | `config(name, value)`: exactly that key is set, then the configuration is booted. |
| BladeDriver.Blade.Exists | drivers/thinkphp5/Blade.php:86-93 | The result is true exactly when the located path is a regular file. The reference is located when it has no extension and taken as is otherwise. |
| BladeDriver.Blade.Fetch | drivers/thinkphp5/Blade.php:104-114 | The options are merged first. The path is located as in `exists`. The result is the path to render when it is a regular file, and `TemplateNotFound` carrying that path otherwise. |
| BladeDriver.Blade.Display | drivers/thinkphp5/Blade.php:129-133 | The options are merged, and the content goes to the engine by name, unlocated. |

## Left out

- Engine construction in `boot` (lines 56-77): the compiler, its tags and directive closures, the engine, the file view finder and the factory belong to the Xiaoler Blade library. Line 74's read of the key `''` belongs to that construction and is not modelled.
- Creating the cache directory (lines 52-54) is filesystem I/O.
- Rendering: `fetch`'s `echo ...->render()` and `Log::record`, and `display`'s `make(...)->render()` (lines 116-117, 132), are the engine's output. `Fetch` returns the path it would render, and `Display` returns the name it would hand over. The template data arguments `$data` and `$mergeData` feed only the rendering, so they are omitted.
- `__call` (lines 195-198) is dynamic forwarding to the engine.
- `Loader::parseName` and `Request::instance()` are outside this source. Their results are the fields of `Request`. `App::$modulePath`, `APP_PATH`, `DS` and `RUNTIME_PATH` are the fields of `Env`, passed to each call that reads them.
- `is_file` is membership in an abstract set of paths. It has no relative-path lookup, no symlinks and no timing.
- Extension: this is PHP's `pathinfo` reduced to "the text after the last dot of the part after the last `/`". It does not model the trailing-slash and backslash handling of the real `pathinfo`.
- Configuration values are strings. The PHP array can hold other values, such as boolean cache flags, and `array_merge` renumbers integer-like keys. Neither is modelled.
- Blade.Get: with a missing key PHP returns `null` and emits a notice. Here that is `None`.
- ParseTemplate: it demands a non-empty `view_depr`. The source reads that key unguarded while the defaults do not contain it, and a missing or empty separator is not meaningful.
