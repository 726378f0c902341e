/** The handful of PHP string builtins the view driver relies on, each
    defined on `string` (a sequence of characters) and each specified by
    what it computes rather than by how. */
module PhpString {

  datatype Option<T> = None | Some(value: T)

  /** PHP's conversion of a string to a boolean: exactly "" and "0" are false. */
  predicate Truthy(s: string) {
    s != "" && s != "0"
  }

  /** `strpos($s, c)` for a one-character needle: the index of the first `c`, or
      `false` (here `None`) when there is none. */
  function IndexOf(s: string, c: char): (r: Option<nat>)
    ensures r.None? <==> c !in s
    ensures r.Some? ==> r.value < |s| && s[r.value] == c && c !in s[..r.value]
  {
    if s == [] then None
    else if s[0] == c then Some(0)
    else
      match IndexOf(s[1..], c)
      case None => None
      case Some(i) =>
        assert s[..i + 1] == [s[0]] + s[1..][..i];
        Some(i + 1)
  }

  /** `0 === strpos($s, c)`: the string starts with `c`. */
  predicate StartsWith(s: string, c: char) {
    s != [] && s[0] == c
  }

  /** `strpos($s, $sub) !== false`: `sub` occurs somewhere in `s`. */
  predicate Contains(s: string, sub: string)
    decreases |s|
  {
    sub <= s || (s != [] && Contains(s[1..], sub))
  }

  /** Glues pieces together with `c` between neighbours (`implode`). */
  function Implode(c: char, pieces: seq<string>): (r: string)
    requires |pieces| >= 1
    ensures pieces[0] <= r
  {
    if |pieces| == 1 then pieces[0] else pieces[0] + [c] + Implode(c, pieces[1..])
  }

  /** `explode(c, $s)`: the pieces of `s` between occurrences of `c`. */
  function Explode(c: char, s: string): (r: seq<string>)
    decreases |s|
    ensures |r| >= 1
    ensures c in s ==> |r| >= 2
    ensures forall k :: 0 <= k < |r| ==> c !in r[k]
    ensures Implode(c, r) == s
  {
    match IndexOf(s, c)
    case None => [s]
    case Some(i) =>
      var rest := Explode(c, s[i + 1..]);
      assert ([s[..i]] + rest)[1..] == rest;
      assert s == s[..i] + [c] + s[i + 1..];
      [s[..i]] + rest
  }

  /** `str_replace(c, $rep, $s)` for a one-character search string: every `c`
      is replaced by `rep`, scanning left to right; the inserted text is not
      scanned again. */
  function ReplaceChar(s: string, c: char, rep: string): (r: string)
    ensures c !in s ==> r == s
    ensures c !in rep ==> c !in r
    ensures forall x :: x in r ==> x in s || x in rep
  {
    if s == [] then []
    else (if s[0] == c then rep else [s[0]]) + ReplaceChar(s[1..], c, rep)
  }

  /** `str_replace` works character by character: replacing in a
      concatenation is replacing in each part. */
  lemma {:induction false} ReplaceCharConcat(a: string, b: string, c: char, rep: string)
    ensures ReplaceChar(a + b, c, rep) == ReplaceChar(a, c, rep) + ReplaceChar(b, c, rep)
    decreases |a|
  {
    if a == [] {
      assert a + b == b;
    } else {
      assert (a + b)[1..] == a[1..] + b;
      ReplaceCharConcat(a[1..], b, c, rep);
    }
  }

  /** A single character: `c` becomes `rep`, any other is kept. */
  lemma ReplaceCharOne(x: char, c: char, rep: string)
    ensures ReplaceChar([x], c, rep) == if x == c then rep else [x]
  {
  }

  /** Joins pieces with the string `sep` between neighbours (`implode` with a
      string glue). */
  function Join(pieces: seq<string>, sep: string): (r: string)
    requires |pieces| >= 1
    ensures pieces[0] <= r
  {
    if |pieces| == 1 then pieces[0] else pieces[0] + sep + Join(pieces[1..], sep)
  }

  /** `str_replace(c, $rep, $s)` equals `implode($rep, explode(c, $s))`: the
      pieces between the occurrences of `c` are kept in order, and each `c`
      between them becomes `rep`. */
  lemma {:induction false} ReplaceCharByExplode(s: string, c: char, rep: string)
    ensures ReplaceChar(s, c, rep) == Join(Explode(c, s), rep)
    decreases |s|
  {
    match IndexOf(s, c)
    case None =>
    case Some(i) =>
      var a, b := s[..i], s[i + 1..];
      assert s == a + [c] + b;
      ExplodeAt(a, c, b);
      ReplaceCharConcat(a + [c], b, c, rep);
      ReplaceCharConcat(a, [c], c, rep);
      ReplaceCharByExplode(b, c, rep);
      assert ([a] + Explode(c, b))[1..] == Explode(c, b);
  }

  /** `ltrim($s, c)` for a single character: the leading run of `c` is removed. */
  function LTrim(s: string, c: char): (r: string)
    ensures |r| <= |s|
    ensures r == [] || r[0] != c
  {
    if s != [] && s[0] == c then LTrim(s[1..], c) else s
  }

  /** What `ltrim` keeps is a suffix of its argument, and what it removes is a
      run of `c` and nothing else. */
  lemma {:induction false} LTrimRemovesOnly(s: string, c: char)
    ensures LTrim(s, c) == s[|s| - |LTrim(s, c)|..]
    ensures forall k :: 0 <= k < |s| - |LTrim(s, c)| ==> s[k] == c
    decreases |s|
  {
    if s != [] && s[0] == c {
      LTrimRemovesOnly(s[1..], c);
      assert s[1..][|s| - 1 - |LTrim(s, c)|..] == s[|s| - |LTrim(s, c)|..];
      assert forall k :: 1 <= k < |s| - |LTrim(s, c)| ==> s[k] == s[1..][k - 1];
    }
  }

  /** The text after the last `c` in `s`, or `None` when `s` has no `c`. */
  function AfterLast(s: string, c: char): (r: Option<string>)
    ensures r.None? <==> c !in s
    ensures r.Some? ==> |r.value| < |s| && c !in r.value
  {
    if s == [] then None
    else if s[|s| - 1] == c then Some([])
    else
      var init := s[..|s| - 1];
      assert s == init + [s[|s| - 1]];
      match AfterLast(init, c)
      case None => None
      case Some(x) => Some(x + [s[|s| - 1]])
  }

  /** The file name part of a path: what follows the last `/`. */
  function Basename(path: string): (r: string)
    ensures '/' !in r && |r| <= |path|
  {
    match AfterLast(path, '/')
    case None => path
    case Some(b) => b
  }

  /** `pathinfo($path, PATHINFO_EXTENSION)`: the text after the last `.` of the
      file name, or "" when the file name has no `.`. */
  function Extension(path: string): (r: string)
    ensures '.' !in r
    ensures r != [] ==> '.' in Basename(path)
  {
    match AfterLast(Basename(path), '.')
    case None => ""
    case Some(e) => e
  }

  /** A `sub` written out between two strings is found by `strpos`. */
  lemma {:induction false} ContainsInfix(a: string, sub: string, b: string)
    ensures Contains(a + sub + b, sub)
    decreases |a|
  {
    if a != [] {
      assert (a + sub + b)[1..] == a[1..] + sub + b;
      ContainsInfix(a[1..], sub, b);
    } else {
      assert a + sub + b == sub + b;
    }
  }

  /** The first piece `explode` returns is the text before the first `c`. */
  lemma ExplodeHead(c: char, s: string)
    ensures var head := Explode(c, s)[0];
      head <= s && c !in head && (|head| < |s| ==> s[|head|] == c)
  {
    var pieces := Explode(c, s);
    if |pieces| > 1 {
      assert s == pieces[0] + [c] + Implode(c, pieces[1..]);
    }
  }

  /** `strpos` finds the `c` written after a `c`-free prefix. */
  lemma {:induction false} IndexOfAfter(a: string, c: char, b: string)
    requires c !in a
    ensures IndexOf(a + [c] + b, c) == Some(|a|)
    decreases |a|
  {
    if a != [] {
      assert (a + [c] + b)[1..] == a[1..] + [c] + b;
      IndexOfAfter(a[1..], c, b);
    }
  }

  /** `explode` splits at the first `c`. */
  lemma ExplodeAt(a: string, c: char, b: string)
    requires c !in a
    ensures Explode(c, a + [c] + b) == [a] + Explode(c, b)
  {
    IndexOfAfter(a, c, b);
    var s := a + [c] + b;
    assert s[..|a|] == a && s[|a| + 1..] == b;
  }

  /** `explode` leaves a string without `c` whole. */
  lemma ExplodeWhole(c: char, s: string)
    requires c !in s
    ensures Explode(c, s) == [s]
  {
  }

  /** The last `c` of `a + b` lies in `b` when `b` has one, and otherwise it is
      the last `c` of `a`. */
  lemma {:induction false} AfterLastConcat(a: string, b: string, c: char)
    ensures AfterLast(a + b, c) ==
      if c in b then AfterLast(b, c)
      else match AfterLast(a, c)
        case None => None
        case Some(x) => Some(x + b)
    decreases |b|
  {
    if b == [] {
      assert a + b == a;
      match AfterLast(a, c)
      case None =>
      case Some(x) => assert x + b == x;
    } else if b[|b| - 1] != c {
      var last := b[|b| - 1];
      var init := b[..|b| - 1];
      assert (a + b)[..|a + b| - 1] == a + init;
      assert b == init + [last];
      AfterLastConcat(a, init, c);
      match AfterLast(a, c)
      case None =>
      case Some(x) => assert x + init + [last] == x + b;
    }
  }

  /** A path ending in `.` and a non-empty `s` with no `/` and no trailing
      `.` has a non-empty extension. */
  lemma ExtensionAfterDot(dir: string, s: string)
    requires s != "" && '/' !in s && s[|s| - 1] != '.'
    ensures Extension(dir + (['.'] + s)) != ""
  {
    var path := dir + (['.'] + s);
    AfterLastConcat(dir, ['.'] + s, '/');
    var file := Basename(dir) + ['.'];
    assert Basename(path) == file + s;
    AfterLastConcat(file, s, '.');
    assert AfterLast(file, '.') == Some([]);
  }

  /** `sub` starts at index `i` of `s`. */
  predicate OccursAt(s: string, sub: string, i: int) {
    0 <= i <= |s| - |sub| && s[i..i + |sub|] == sub
  }

  /** `Contains` agrees with the positional reading of `strpos !== false`:
      there is an index where `sub` starts. */
  lemma ContainsAt(s: string, sub: string)
    ensures Contains(s, sub) <==> exists i :: OccursAt(s, sub, i)
  {
    if Contains(s, sub) {
      var i := ContainsWitness(s, sub);
    }
    if exists i :: OccursAt(s, sub, i) {
      var i :| OccursAt(s, sub, i);
      OccursContains(s, sub, i);
    }
  }

  /** Where `Contains` finds `sub`. */
  lemma {:induction false} ContainsWitness(s: string, sub: string) returns (i: nat)
    requires Contains(s, sub)
    ensures OccursAt(s, sub, i)
    decreases |s|
  {
    if sub <= s {
      i := 0;
    } else {
      var j := ContainsWitness(s[1..], sub);
      assert s[1..][j..j + |sub|] == s[j + 1..j + 1 + |sub|];
      i := j + 1;
    }
  }

  /** An occurrence at any index is found by `Contains`. */
  lemma {:induction false} OccursContains(s: string, sub: string, i: int)
    requires OccursAt(s, sub, i)
    ensures Contains(s, sub)
    decreases i
  {
    if i > 0 {
      assert s[1..][i - 1..i - 1 + |sub|] == s[i..i + |sub|];
      OccursContains(s[1..], sub, i - 1);
    }
  }

  /** `explode` undoes `implode` when no piece contains the separator. */
  lemma {:induction false} ExplodeImplode(c: char, pieces: seq<string>)
    requires |pieces| >= 1
    requires forall k :: 0 <= k < |pieces| ==> c !in pieces[k]
    ensures Explode(c, Implode(c, pieces)) == pieces
    decreases |pieces|
  {
    if |pieces| == 1 {
      ExplodeWhole(c, pieces[0]);
    } else {
      ExplodeImplode(c, pieces[1..]);
      ExplodeAt(pieces[0], c, Implode(c, pieces[1..]));
    }
  }
}
