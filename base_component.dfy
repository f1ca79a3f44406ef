// The i18n support of js/BaseComponent.js: dot-path lookup into the language
// data (`resolveKey`), `{placeholder}` substitution (`interpolate`), and the two
// walks over the component's `[data-i18n]` elements (`refreshLanguage`,
// `updateLanguage`).
module BaseComponent {
  import opened Wrappers
  import opened JsValue
  import JsText
  import opened Template
  import opened DomText

  /* ---------------- resolveKey ---------------- */

  /** `o?.[p]`: a property read that yields undefined on undefined or null. */
  function Step(o: Value, p: string): Value {
    if Nullish(o) then Undefined else Get(o, p)
  }

  /** `path.reduce((o, p) => o?.[p], o)`. */
  function Walk(o: Value, path: seq<string>): Value
    decreases |path|
  {
    if path == [] then o else Walk(Step(o, path[0]), path[1..])
  }

  /** `resolveKey(obj, key)`: follow the `.`-separated segments of `key` from `obj`. */
  function ResolveKey(obj: Value, key: string): Value {
    Walk(obj, JsText.Split(key, '.'))
  }

  /** Walking a path in two legs is walking it in one. */
  lemma {:induction false} WalkAppend(o: Value, xs: seq<string>, ys: seq<string>)
    ensures Walk(o, xs + ys) == Walk(Walk(o, xs), ys)
    decreases |xs|
  {
    if xs == [] {
      assert xs + ys == ys;
    } else {
      assert (xs + ys)[1..] == xs[1..] + ys;
      WalkAppend(Step(o, xs[0]), xs[1..], ys);
    }
  }

  /** Once a segment is missing, every later segment yields undefined: nothing throws. */
  lemma {:induction false} WalkFromNullish(o: Value, path: seq<string>)
    requires Nullish(o)
    ensures Walk(o, path) == if path == [] then o else Undefined
    decreases |path|
  {
    if path != [] && path[1..] != [] {
      WalkFromNullish(Undefined, path[1..]);
    }
  }

  /** A key without `.` is a single property read. */
  lemma ResolveSingleSegment(obj: Value, key: string)
    requires '.' !in key
    ensures ResolveKey(obj, key) == if Nullish(obj) then Undefined else Get(obj, key)
  {
    JsText.SplitNoSeparator(key, '.');
    assert Walk(obj, [key]) == Walk(Step(obj, key), []);
  }

  /** `resolveKey(obj, a + "." + b) == resolveKey(resolveKey(obj, a), b)`. */
  lemma ResolveDotted(obj: Value, a: string, b: string)
    ensures ResolveKey(obj, a + "." + b) == ResolveKey(ResolveKey(obj, a), b)
  {
    JsText.SplitConcat(a, b, '.');
    WalkAppend(obj, JsText.Split(a, '.'), JsText.Split(b, '.'));
  }

  /** A missing intermediate segment makes the whole lookup undefined. */
  lemma ResolveMissingPrefix(obj: Value, a: string, b: string)
    requires Nullish(ResolveKey(obj, a))
    ensures ResolveKey(obj, a + "." + b) == Undefined
  {
    ResolveDotted(obj, a, b);
    WalkFromNullish(ResolveKey(obj, a), JsText.Split(b, '.'));
  }

  /* ---------------- interpolate ---------------- */

  /** The index of the first `}` in `t`, or `|t|` when there is none. */
  function IndexOfClose(t: string): (j: nat)
    ensures j <= |t|
    ensures forall k :: 0 <= k < j ==> t[k] != '}'
    ensures j < |t| ==> t[j] == '}'
    decreases |t|
  {
    if t == [] || t[0] == '}' then 0 else 1 + IndexOfClose(t[1..])
  }

  /** The piece at the front of `t` and the number of characters it spans: at a `{`
      a placeholder runs to the next `}` and needs at least one character before it
      (the key may itself contain `{`); otherwise the character is literal. */
  function NextPiece(t: string): (r: (Piece, nat))
    requires t != []
    ensures 1 <= r.1 <= |t| && Source(r.0) == t[..r.1]
    ensures r.0.Hole? ==> r.0.key != [] && '}' !in r.0.key
  {
    if t[0] == '{' then
      var j := 1 + IndexOfClose(t[1..]);
      if 1 < j < |t| then
        assert t[..j + 1] == "{" + t[1..j] + "}";
        (Hole(t[1..j]), j + 1)
      else (Lit('{'), 1)
    else (Lit(t[0]), 1)
  }

  /** The matches of `/\{([^}]+)\}/g`, left to right, with the text between them. */
  function Scan(t: string): (ps: seq<Piece>)
    decreases |t|
  {
    if t == [] then [] else [NextPiece(t).0] + Scan(t[NextPiece(t).1..])
  }

  /** The replacement callback: `variables[key] ?? `{${key}}``. */
  function Substitute(key: string, vars: map<string, Value>): string {
    if key in vars && !Nullish(vars[key]) then ToText(vars[key]) else "{" + key + "}"
  }

  function Emit(p: Piece, vars: map<string, Value>): string {
    match p
    case Lit(c) => [c]
    case Hole(k) => Substitute(k, vars)
  }

  function Render(ps: seq<Piece>, vars: map<string, Value>): string
    decreases |ps|
  {
    if ps == [] then "" else Emit(ps[0], vars) + Render(ps[1..], vars)
  }

  /** `interpolate(template, variables)`. */
  function Interpolate(template: string, vars: map<string, Value>): string {
    Render(Scan(template), vars)
  }

  /** One step of the scan: the front piece, then the scan of what follows it. */
  lemma InterpolateStep(t: string, vars: map<string, Value>)
    requires t != []
    ensures Interpolate(t, vars) == Emit(NextPiece(t).0, vars) + Interpolate(t[NextPiece(t).1..], vars)
  {
    assert Scan(t)[1..] == Scan(t[NextPiece(t).1..]);
  }

  /** Every placeholder the scan finds has a non-empty key without `}`. */
  lemma {:induction false} ScanHoles(t: string)
    ensures forall p <- Scan(t) :: p.Hole? ==> p.key != [] && '}' !in p.key
    decreases |t|
  {
    if t != [] {
      ScanHoles(t[NextPiece(t).1..]);
    }
  }

  /** Scanning loses nothing: the pieces spell out the text. */
  lemma {:induction false} ScanRoundTrip(t: string)
    ensures Unparse(Scan(t)) == t
    decreases |t|
  {
    if t != [] {
      var p := NextPiece(t).0;
      var n := NextPiece(t).1;
      var rest := t[n..];
      ScanRoundTrip(rest);
      assert Scan(t) == [p] + Scan(rest);
      UnparseFront(Scan(t), p, Scan(rest), rest);
      Rejoin(t, n);
    }
  }

  /** Rendering keeps every placeholder whose variable is unset verbatim. */
  lemma {:induction false} RenderUnset(ps: seq<Piece>, vars: map<string, Value>)
    requires forall p <- ps :: p.Hole? ==> p.key !in vars || Nullish(vars[p.key])
    ensures Render(ps, vars) == Unparse(ps)
    decreases |ps|
  {
    if ps != [] {
      assert ps[0] in ps;
      RenderUnset(ps[1..], vars);
    }
  }

  /** `interpolate(t, {})` is `t`. */
  lemma InterpolateWithoutVariables(t: string)
    ensures Interpolate(t, map[]) == t
  {
    RenderUnset(Scan(t), map[]);
    ScanRoundTrip(t);
  }

  /** Text before the first `{` is copied as it is. */
  lemma {:induction false} InterpolateLiteralPrefix(a: string, b: string, vars: map<string, Value>)
    requires '{' !in a
    ensures Interpolate(a + b, vars) == a + Interpolate(b, vars)
    decreases |a|
  {
    if a != [] {
      var t := a + b;
      assert t[0] == a[0] && t[1..] == a[1..] + b;
      InterpolateStep(t, vars);
      InterpolateLiteralPrefix(a[1..], b, vars);
      assert a == [a[0]] + a[1..];
    } else {
      assert a + b == b;
    }
  }

  /** A text without `{` comes back unchanged, whatever the variables. */
  lemma InterpolateWithoutBraces(t: string, vars: map<string, Value>)
    requires '{' !in t
    ensures Interpolate(t, vars) == t
  {
    InterpolateLiteralPrefix(t, "", vars);
    assert t + "" == t;
  }

  /** A placeholder is replaced by its variable's text unless that variable is undefined
      or null, when it is kept verbatim; the scan then resumes after the `}`, so the
      inserted text is never scanned again. */
  lemma InterpolatePlaceholder(key: string, rest: string, vars: map<string, Value>)
    requires key != [] && '}' !in key
    ensures Interpolate("{" + key + "}" + rest, vars)
         == (if key in vars && !Nullish(vars[key]) then ToText(vars[key]) else "{" + key + "}")
            + Interpolate(rest, vars)
  {
    var t := "{" + key + "}" + rest;
    PlaceholderScan(t, key, rest);
    InterpolateStep(t, vars);
  }

  lemma PlaceholderScan(t: string, key: string, rest: string)
    requires key != [] && '}' !in key && t == "{" + key + "}" + rest
    ensures NextPiece(t) == (Hole(key), |key| + 2) && t[|key| + 2..] == rest
  {
    assert t[1..] == key + "}" + rest;
    var j := 1 + IndexOfClose(t[1..]);
    assert t[1 + |key|] == '}';
    assert forall k :: 0 <= k < |key| ==> t[1..][k] == key[k];
    assert j == 1 + |key|;
    assert t[1..j] == key && t[j + 1..] == rest;
  }

  /** `{}` is never a placeholder. */
  lemma InterpolateEmptyBraces(rest: string, vars: map<string, Value>)
    ensures Interpolate("{}" + rest, vars) == "{}" + Interpolate(rest, vars)
  {
    var t := "{}" + rest;
    EmptyBracesScan(t, rest);
    InterpolateLiteral(t, vars);
    InterpolateLiteral(t[1..], vars);
    OpenClose(Interpolate(rest, vars));
  }

  lemma EmptyBracesScan(t: string, rest: string)
    requires t == "{}" + rest
    ensures t[0] == '{' && t[1..][0] == '}' && t[1..][1..] == rest
    ensures NextPiece(t).0.Lit? && NextPiece(t[1..]).0.Lit?
  {
    assert t[1..] == "}" + rest;
    assert IndexOfClose(t[1..]) == 0;
  }

  /** Where the scan finds a literal, that character is copied and the scan moves on. */
  lemma InterpolateLiteral(t: string, vars: map<string, Value>)
    requires t != [] && NextPiece(t).0.Lit?
    ensures Interpolate(t, vars) == [t[0]] + Interpolate(t[1..], vars)
  {
    InterpolateStep(t, vars);
    assert t[..NextPiece(t).1] == [NextPiece(t).0.c];
  }

  /* ---------------- refreshLanguage / updateLanguage ---------------- */

  /** Calling `interpolate` on a value that is not a string throws at `template.replace`. */
  const NOT_A_STRING := "template.replace is not a function"

  /** `refreshLanguage`'s callback for an element whose `data-i18n` is `key`: a falsy
      lookup leaves the element alone, a string is interpolated into it. */
  function RefreshRule(data: Value, vars: map<string, Value>, key: string): Update {
    var text := ResolveKey(data, key);
    if !Truthy(text) then Keep
    else if text.Str? then Write(Interpolate(text.s, vars))
    else Throw(NOT_A_STRING)
  }

  /** `updateLanguage`'s callback: an undefined or null lookup leaves the element alone
      (with a warning on the console); any other string, the empty one included, is
      interpolated into it. `interpolate` always returns a string, so the fallback to
      the raw text never applies. */
  function UpdateRule(data: Value, vars: map<string, Value>, key: string): Update {
    var raw := ResolveKey(data, key);
    if Nullish(raw) then Keep
    else if raw.Str? then Write(Interpolate(raw.s, vars))
    else Throw(NOT_A_STRING)
  }

  function RefreshRules(data: Value, vars: map<string, Value>, keys: seq<string>): (us: seq<Update>)
    ensures |us| == |keys|
  {
    seq(|keys|, i requires 0 <= i < |keys| => RefreshRule(data, vars, keys[i]))
  }

  function UpdateRules(data: Value, vars: map<string, Value>, keys: seq<string>): (us: seq<Update>)
    ensures |us| == |keys|
  {
    seq(|keys|, i requires 0 <= i < |keys| => UpdateRule(data, vars, keys[i]))
  }

  /** The two walks agree on truthy values; `refreshLanguage` alone skips "", 0 and
      false (where `updateLanguage` writes "" or throws). */
  lemma RefreshIsUpdateOnTruthy(data: Value, vars: map<string, Value>, key: string)
    ensures RefreshRule(data, vars, key)
         == if Truthy(ResolveKey(data, key)) then UpdateRule(data, vars, key) else Keep
  {
  }

  /** Without variables (as `updateText` calls it) `updateLanguage` writes the raw text. */
  lemma UpdateWithoutVariables(data: Value, key: string)
    ensures UpdateRule(data, map[], key)
         == var raw := ResolveKey(data, key);
            if Nullish(raw) then Keep else if raw.Str? then Write(raw.s) else Throw(NOT_A_STRING)
  {
    var raw := ResolveKey(data, key);
    if raw.Str? {
      InterpolateWithoutVariables(raw.s);
    }
  }

  /** The i18n state of a component: `_langData`, `_langVars` and the text of each
      `[data-i18n]` element of its shadow root, in document order. */
  class Component {
    var langData: Value
    var langVars: map<string, Value>
    const keys: seq<string>
    const texts: array<string>

    ghost predicate Valid()
      reads this
    {
      texts.Length == |keys|
    }

    /** A fresh component: no language data yet (`_langData = null`). */
    constructor (keys: seq<string>, initial: seq<string>)
      requires |keys| == |initial|
      ensures Valid() && fresh(texts)
      ensures this.keys == keys && texts[..] == initial
      ensures langData == Null && langVars == map[]
    {
      this.keys := keys;
      texts := new string[|initial|](i requires 0 <= i < |initial| => initial[i]);
      langData := Null;
      langVars := map[];
    }

    /** `refreshLanguage()`: nothing without truthy language data; otherwise each
        element follows `RefreshRule` until one throws. */
    method RefreshLanguage() returns (escaped: Option<string>)
      requires Valid()
      modifies texts
      ensures !Truthy(langData) ==> texts[..] == old(texts[..]) && escaped == None
      ensures Truthy(langData) ==>
                texts[..] == Applied(old(texts[..]), RefreshRules(langData, langVars, keys))
                && escaped == Escaped(RefreshRules(langData, langVars, keys))
    {
      if !Truthy(langData) {
        return None;
      }
      escaped := ForEachText(texts, RefreshRules(langData, langVars, keys));
    }

    /** `setLanguageData(langData = {}, variables = {})`: store both, then refresh. */
    method SetLanguageData(data: Value, vars: map<string, Value>) returns (escaped: Option<string>)
      requires Valid()
      modifies this, texts
      ensures langData == (if data.Undefined? then Obj(map[]) else data) && langVars == vars
      ensures !Truthy(langData) ==> texts[..] == old(texts[..]) && escaped == None
      ensures Truthy(langData) ==>
                texts[..] == Applied(old(texts[..]), RefreshRules(langData, vars, keys))
                && escaped == Escaped(RefreshRules(langData, vars, keys))
    {
      langData := if data.Undefined? then Obj(map[]) else data;
      langVars := vars;
      escaped := RefreshLanguage();
    }

    /** `updateLanguage(currentLanguageData, currentVariables = {})`: each element
        follows `UpdateRule` until one throws; the stored data is not touched. */
    method UpdateLanguage(data: Value, vars: map<string, Value>) returns (escaped: Option<string>)
      requires Valid()
      modifies texts
      ensures texts[..] == Applied(old(texts[..]), UpdateRules(data, vars, keys))
      ensures escaped == Escaped(UpdateRules(data, vars, keys))
    {
      escaped := ForEachText(texts, UpdateRules(data, vars, keys));
    }
  }
}
