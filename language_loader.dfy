// js/languageLoader.js keeps its own `interpolate` and `resolveKey`, which differ
// from the ones in js/BaseComponent.js: a placeholder key must be `\w+`, a null
// variable is substituted (as "null"), and a missing intermediate segment throws.
// `updateText` walks the page's `[data-i18n]` elements with them.
module LanguageLoader {
  import opened Wrappers
  import opened JsValue
  import opened JsText
  import opened Template
  import opened DomText
  import Base = BaseComponent

  /* ---------------- interpolate ---------------- */

  /** The length of the run of `\w` characters at the front of `t`. */
  function WordRun(t: string): (n: nat)
    ensures n <= |t|
    ensures forall k :: 0 <= k < n ==> IsWordChar(t[k])
    ensures n < |t| ==> !IsWordChar(t[n])
    decreases |t|
  {
    if t != [] && IsWordChar(t[0]) then 1 + WordRun(t[1..]) else 0
  }

  predicate IsWordKey(key: string) {
    key != [] && forall c <- key :: IsWordChar(c)
  }

  /** The piece at the front of `t` for `/\{(\w+)\}/g`: a placeholder is `{`, one or
      more word characters, then `}`; anything else makes the character literal. */
  function NextPiece(t: string): (r: (Piece, nat))
    requires t != []
    ensures 1 <= r.1 <= |t| && Source(r.0) == t[..r.1]
    ensures r.0.Hole? ==> IsWordKey(r.0.key)
  {
    if t[0] == '{' then
      var j := 1 + WordRun(t[1..]);
      if 1 < j < |t| && t[j] == '}' then
        assert t[..j + 1] == "{" + t[1..j] + "}";
        assert forall c <- t[1..j] :: IsWordChar(c);
        (Hole(t[1..j]), j + 1)
      else (Lit('{'), 1)
    else (Lit(t[0]), 1)
  }

  function Scan(t: string): seq<Piece>
    decreases |t|
  {
    if t == [] then [] else [NextPiece(t).0] + Scan(t[NextPiece(t).1..])
  }

  /** The replacement callback: `vars[key] !== undefined ? vars[key] : `{${key}}``. */
  function Substitute(key: string, vars: map<string, Value>): string {
    if key in vars && !vars[key].Undefined? then ToText(vars[key]) else "{" + key + "}"
  }

  function Emit(p: Piece, vars: map<string, Value>): string {
    match p
    case Lit(c) => [c]
    case Hole(k) => Substitute(k, vars)
  }

  function Render(ps: seq<Piece>, vars: map<string, Value>): string
    decreases |ps|
  {
    if ps == [] then "" else Emit(ps[0], vars) + Render(ps[1..], vars)
  }

  /** `interpolate(text, vars)`. */
  function Interpolate(text: string, vars: map<string, Value>): string {
    Render(Scan(text), vars)
  }

  lemma InterpolateStep(t: string, vars: map<string, Value>)
    requires t != []
    ensures Interpolate(t, vars) == Emit(NextPiece(t).0, vars) + Interpolate(t[NextPiece(t).1..], vars)
  {
    assert Scan(t)[1..] == Scan(t[NextPiece(t).1..]);
  }

  /** Every placeholder this scan finds is one or more word characters. */
  lemma {:induction false} ScanHoles(t: string)
    ensures forall p <- Scan(t) :: p.Hole? ==> IsWordKey(p.key)
    decreases |t|
  {
    if t != [] {
      ScanHoles(t[NextPiece(t).1..]);
    }
  }

  /** Scanning loses nothing: the pieces spell out the text. */
  lemma {:induction false} ScanRoundTrip(t: string)
    ensures Unparse(Scan(t)) == t
    decreases |t|
  {
    if t != [] {
      var p := NextPiece(t).0;
      var n := NextPiece(t).1;
      var rest := t[n..];
      ScanRoundTrip(rest);
      assert Scan(t) == [p] + Scan(rest);
      UnparseFront(Scan(t), p, Scan(rest), rest);
      Rejoin(t, n);
    }
  }

  lemma {:induction false} RenderUnset(ps: seq<Piece>, vars: map<string, Value>)
    requires forall p <- ps :: p.Hole? ==> p.key !in vars || vars[p.key].Undefined?
    ensures Render(ps, vars) == Unparse(ps)
    decreases |ps|
  {
    if ps != [] {
      assert ps[0] in ps;
      RenderUnset(ps[1..], vars);
    }
  }

  /** With an empty variable map the text comes back unchanged. */
  lemma InterpolateWithoutVariables(t: string)
    ensures Interpolate(t, map[]) == t
  {
    RenderUnset(Scan(t), map[]);
    ScanRoundTrip(t);
  }

  /** Text before the first `{` is copied as it is. */
  lemma {:induction false} InterpolateLiteralPrefix(a: string, b: string, vars: map<string, Value>)
    requires '{' !in a
    ensures Interpolate(a + b, vars) == a + Interpolate(b, vars)
    decreases |a|
  {
    if a != [] {
      var t := a + b;
      assert t[0] == a[0] && t[1..] == a[1..] + b;
      InterpolateStep(t, vars);
      InterpolateLiteralPrefix(a[1..], b, vars);
      assert a == [a[0]] + a[1..];
    } else {
      assert a + b == b;
    }
  }

  /** A word-character placeholder is replaced whenever its variable is not undefined,
      null included; otherwise it is kept verbatim. */
  lemma InterpolatePlaceholder(key: string, rest: string, vars: map<string, Value>)
    requires IsWordKey(key)
    ensures Interpolate("{" + key + "}" + rest, vars)
         == (if key in vars && !vars[key].Undefined? then ToText(vars[key]) else "{" + key + "}")
            + Interpolate(rest, vars)
  {
    var t := "{" + key + "}" + rest;
    PlaceholderScan(t, key, rest);
    InterpolateStep(t, vars);
  }

  lemma PlaceholderScan(t: string, key: string, rest: string)
    requires IsWordKey(key) && t == "{" + key + "}" + rest
    ensures NextPiece(t) == (Hole(key), |key| + 2) && t[|key| + 2..] == rest
  {
    assert t[1..] == key + "}" + rest;
    assert forall k :: 0 <= k < |key| ==> t[1..][k] == key[k];
    assert t[1 + |key|] == '}';
    var j := 1 + WordRun(t[1..]);
    assert j == 1 + |key|;
    assert t[1..j] == key && t[j + 1..] == rest;
  }

  /** Where the scan finds a literal, that character is copied and the scan moves on. */
  lemma InterpolateLiteral(t: string, vars: map<string, Value>)
    requires t != [] && NextPiece(t).0.Lit?
    ensures Interpolate(t, vars) == [t[0]] + Interpolate(t[1..], vars)
  {
    InterpolateStep(t, vars);
    assert t[..NextPiece(t).1] == [NextPiece(t).0.c];
  }

  /** `{a.b}`, `{a-b}` and the like are not placeholders here: a key with a character
      outside `\w` (and no brace) comes back verbatim, whatever the variables. */
  lemma InterpolateNonWordKey(key: string, vars: map<string, Value>)
    requires key != [] && '{' !in key && '}' !in key
    requires exists c <- key :: !IsWordChar(c)
    ensures Interpolate("{" + key + "}", vars) == "{" + key + "}"
  {
    var t := "{" + key + "}";
    NonWordKeyScan(t, key);
    InterpolateLiteral(t, vars);
    InterpolateLiteralPrefix(t[1..], "", vars);
    assert t[1..] + "" == t[1..];
    assert [t[0]] + t[1..] == t;
  }

  lemma NonWordKeyScan(t: string, key: string)
    requires key != [] && '{' !in key && '}' !in key
    requires exists c <- key :: !IsWordChar(c)
    requires t == "{" + key + "}"
    ensures NextPiece(t).0.Lit? && '{' !in t[1..]
  {
    assert t[1..] == key + "}";
    var j := 1 + WordRun(t[1..]);
    assert j <= |key| by {
      var c :| c in key && !IsWordChar(c);
      var m :| 0 <= m < |key| && key[m] == c;
      assert t[1..][m] == c;
    }
    assert t[j] == key[j - 1];
  }

  /** `{}` is not a placeholder here either. */
  lemma InterpolateEmptyBraces(rest: string, vars: map<string, Value>)
    ensures Interpolate("{}" + rest, vars) == "{}" + Interpolate(rest, vars)
  {
    var t := "{}" + rest;
    EmptyBracesScan(t, rest);
    InterpolateLiteral(t, vars);
    InterpolateLiteral(t[1..], vars);
    OpenClose(Interpolate(rest, vars));
  }

  lemma EmptyBracesScan(t: string, rest: string)
    requires t == "{}" + rest
    ensures t[0] == '{' && t[1..][0] == '}' && t[1..][1..] == rest
    ensures NextPiece(t).0.Lit? && NextPiece(t[1..]).0.Lit?
  {
    assert t[1..] == "}" + rest;
    assert !IsWordChar(t[1..][0]) && WordRun(t[1..]) == 0;
  }

  /* ---------------- the two copies of interpolate side by side ---------------- */

  /** Where the placeholders of the other copy all have word-character keys, both
      scans cut the text into the same pieces. */
  lemma NextPieceAgrees(t: string)
    requires t != []
    requires Base.NextPiece(t).0.Hole? ==> IsWordKey(Base.NextPiece(t).0.key)
    ensures NextPiece(t) == Base.NextPiece(t)
  {
    if t[0] == '{' {
      var jb := 1 + Base.IndexOfClose(t[1..]);
      var jl := 1 + WordRun(t[1..]);
      if 1 < jb < |t| {
        assert t[1..jb] == t[1..][..jb - 1];
        assert forall k :: 0 <= k < jb - 1 ==> IsWordChar(t[1..][k]) by {
          forall k | 0 <= k < jb - 1 ensures IsWordChar(t[1..][k]) {
            assert t[1..jb][k] in t[1..jb];
          }
        }
        assert !IsWordChar(t[1..][jb - 1]);
        assert jl == jb;
      } else if jb == 1 && |t| > 1 {
        assert t[1..][0] == '}';
        assert jl == 1;
      }
    }
  }

  lemma {:induction false} ScansAgree(t: string)
    requires forall p <- Base.Scan(t) :: p.Hole? ==> IsWordKey(p.key)
    ensures Scan(t) == Base.Scan(t)
    decreases |t|
  {
    if t != [] {
      var p := Base.NextPiece(t).0;
      assert Base.Scan(t) == [p] + Base.Scan(t[Base.NextPiece(t).1..]);
      assert p in Base.Scan(t);
      NextPieceAgrees(t);
      ScansAgree(t[Base.NextPiece(t).1..]);
    }
  }

  lemma {:induction false} RendersAgree(ps: seq<Piece>, vars: map<string, Value>)
    requires forall k :: k in vars ==> vars[k] != Null
    ensures Render(ps, vars) == Base.Render(ps, vars)
    decreases |ps|
  {
    if ps != [] {
      RendersAgree(ps[1..], vars);
    }
  }

  /** The two copies of `interpolate` agree on every text whose placeholders (as the
      other copy sees them) have word-character keys, when no variable is null. */
  lemma CopiesAgree(t: string, vars: map<string, Value>)
    requires forall p <- Base.Scan(t) :: p.Hole? ==> IsWordKey(p.key)
    requires forall k :: k in vars ==> vars[k] != Null
    ensures Interpolate(t, vars) == Base.Interpolate(t, vars)
  {
    ScansAgree(t);
    RendersAgree(Scan(t), vars);
  }

  /** A null variable: this copy writes "null", the other keeps the placeholder. */
  lemma CopiesDifferOnNull(key: string, vars: map<string, Value>)
    requires IsWordKey(key) && key in vars && vars[key] == Null
    ensures Interpolate("{" + key + "}", vars) == "null"
    ensures Base.Interpolate("{" + key + "}", vars) == "{" + key + "}"
  {
    InterpolatePlaceholder(key, "", vars);
    assert '}' !in key by {
      assert !IsWordChar('}');
    }
    Base.InterpolatePlaceholder(key, "", vars);
    assert "{" + key + "}" + "" == "{" + key + "}";
  }

  /* ---------------- resolveKey ---------------- */

  /** `o[p]`: reading a property of undefined or null throws a TypeError. */
  function Step(o: Value, p: string): Result<Value> {
    if Nullish(o) then Err("Cannot read properties of " + ToText(o) + " (reading '" + p + "')")
    else Ok(Get(o, p))
  }

  /** `path.reduce((o, i) => o[i], o)`: the first throw ends the walk. */
  function Walk(o: Value, path: seq<string>): Result<Value>
    decreases |path|
  {
    if path == [] then Ok(o)
    else match Step(o, path[0])
      case Err(m) => Err(m)
      case Ok(next) => Walk(next, path[1..])
  }

  /** `resolveKey(obj, key)`. */
  function ResolveKey(obj: Value, key: string): Result<Value> {
    Walk(obj, Split(key, '.'))
  }

  /** A single-segment key is `obj[key]`, undefined when absent, without error. */
  lemma ResolveSingleSegment(obj: Value, key: string)
    requires '.' !in key && !Nullish(obj)
    ensures ResolveKey(obj, key) == Ok(Get(obj, key))
    ensures obj.Obj? && key !in obj.fields ==> ResolveKey(obj, key) == Ok(Undefined)
  {
    SplitNoSeparator(key, '.');
    assert Walk(obj, [key]) == Walk(Get(obj, key), []);
  }

  /** Where this copy returns a value the other returns the same one, and where this
      copy throws the other returns undefined. */
  lemma {:induction false} WalksAgree(o: Value, path: seq<string>)
    ensures Base.Walk(o, path) == match Walk(o, path) case Ok(v) => v case Err(_) => Undefined
    decreases |path|
  {
    if path != [] {
      if Nullish(o) {
        Base.WalkFromNullish(o, path);
      } else {
        WalksAgree(Get(o, path[0]), path[1..]);
      }
    }
  }

  lemma ResolveAgreesWithBase(obj: Value, key: string)
    ensures Base.ResolveKey(obj, key) == match ResolveKey(obj, key) case Ok(v) => v case Err(_) => Undefined
  {
    WalksAgree(obj, Split(key, '.'));
  }

  /** A missing non-final segment throws here (there is no optional chaining). */
  lemma {:induction false} ResolveMissingPrefixThrows(obj: Value, a: string, b: string)
    requires Nullish(Base.ResolveKey(obj, a))
    ensures ResolveKey(obj, a + "." + b).Err?
  {
    SplitConcat(a, b, '.');
    var xs := Split(a, '.');
    var ys := Split(b, '.');
    WalksAgree(obj, xs);
    ThrowsAfterNullish(obj, xs, ys);
  }

  lemma {:induction false} ThrowsAfterNullish(o: Value, xs: seq<string>, ys: seq<string>)
    requires ys != []
    requires Walk(o, xs).Err? || Nullish(Walk(o, xs).value)
    ensures Walk(o, xs + ys).Err?
    decreases |xs|
  {
    if xs == [] {
      assert xs + ys == ys;
    } else {
      assert (xs + ys)[1..] == xs[1..] + ys;
      if Step(o, xs[0]).Ok? {
        ThrowsAfterNullish(Step(o, xs[0]).value, xs[1..], ys);
      }
    }
  }

  /* ---------------- updateText ---------------- */

  const NOT_A_STRING := "text.replace is not a function"

  /** `updateText`'s callback: a thrown lookup escapes, a truthy string is interpolated
      into the element, anything falsy leaves it alone. */
  function UpdateTextRule(data: Value, vars: map<string, Value>, key: string): Update {
    match ResolveKey(data, key)
    case Err(m) => Throw(m)
    case Ok(value) =>
      if !Truthy(value) then Keep
      else if value.Str? then Write(Interpolate(value.s, vars))
      else Throw(NOT_A_STRING)
  }

  function UpdateTextRules(data: Value, vars: map<string, Value>, keys: seq<string>): (us: seq<Update>)
    ensures |us| == |keys|
  {
    seq(|keys|, i requires 0 <= i < |keys| => UpdateTextRule(data, vars, keys[i]))
  }

  /** An element is written only when its key resolves to a truthy value. */
  lemma UpdateTextWritesTruthy(data: Value, vars: map<string, Value>, key: string)
    ensures UpdateTextRule(data, vars, key).Write?
        <==> ResolveKey(data, key).Ok? && Truthy(ResolveKey(data, key).value)
                 && ResolveKey(data, key).value.Str?
    ensures UpdateTextRule(data, vars, key).Keep?
        <==> ResolveKey(data, key).Ok? && !Truthy(ResolveKey(data, key).value)
  {
  }

  /** `updateText()`: walk the page's elements, then (when nothing threw) let the live
      panel, if present, update its own elements from the same data without variables.
      The variables are a parameter: `currentVariables` is not declared in the file. */
  method UpdateText(data: Value, vars: map<string, Value>, keys: seq<string>, texts: array<string>,
                    live: Base.Component?)
    returns (escaped: Option<string>)
    requires texts.Length == |keys|
    requires live != null ==> live.Valid() && live.texts != texts
    modifies texts, if live != null then {live.texts} else {}
    ensures texts[..] == Applied(old(texts[..]), UpdateTextRules(data, vars, keys))
    ensures live != null && Escaped(UpdateTextRules(data, vars, keys)) == None ==>
              live.texts[..] == Applied(old(live.texts[..]), Base.UpdateRules(data, map[], live.keys))
              && escaped == Escaped(Base.UpdateRules(data, map[], live.keys))
    ensures live != null && Escaped(UpdateTextRules(data, vars, keys)) != None ==>
              live.texts[..] == old(live.texts[..])
    ensures Escaped(UpdateTextRules(data, vars, keys)) != None || live == null ==>
              escaped == Escaped(UpdateTextRules(data, vars, keys))
  {
    escaped := ForEachText(texts, UpdateTextRules(data, vars, keys));
    if escaped == None && live != null {
      escaped := live.UpdateLanguage(data, map[]);
    }
  }
}
