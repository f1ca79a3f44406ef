// `querySelectorAll("[data-i18n]").forEach(el => ...)`: each element, in document
// order, keeps its text, gets a new text, or throws; an exception ends the walk
// with the elements before it already updated and the rest untouched.
module DomText {
  import opened Wrappers

  /** What the callback does to one element. */
  datatype Update = Keep | Write(text: string) | Throw(message: string)

  /** The index of the first element whose callback throws, or the element count. */
  function Halt(us: seq<Update>): (k: nat)
    ensures k <= |us|
    ensures forall i :: 0 <= i < k ==> !us[i].Throw?
    ensures k < |us| ==> us[k].Throw?
    decreases |us|
  {
    if us == [] || us[0].Throw? then 0 else 1 + Halt(us[1..])
  }

  function Effect(u: Update, text: string): string {
    if u.Write? then u.text else text
  }

  /** The element texts once the walk is over. */
  function Applied(texts: seq<string>, us: seq<Update>): (r: seq<string>)
    requires |texts| == |us|
  {
    seq(|texts|, i requires 0 <= i < |texts| => if i < Halt(us) then Effect(us[i], texts[i]) else texts[i])
  }

  /** The exception that escapes the walk, if one does. */
  function Escaped(us: seq<Update>): Option<string> {
    var k := Halt(us);
    if k < |us| then Some(us[k].message) else None
  }

  /** A walk whose callbacks only keep texts changes nothing. */
  lemma AppliedKeepAll(texts: seq<string>, us: seq<Update>)
    requires |texts| == |us|
    requires forall i :: 0 <= i < |us| ==> us[i].Keep?
    ensures Applied(texts, us) == texts
    ensures Escaped(us) == None
  {
    assert Halt(us) == |us|;
  }

  /** The walk: runs the callbacks on `texts` in order and stops at the first throw. */
  method ForEachText(texts: array<string>, us: seq<Update>) returns (escaped: Option<string>)
    requires texts.Length == |us|
    modifies texts
    ensures texts[..] == Applied(old(texts[..]), us)
    ensures escaped == Escaped(us)
  {
    var i := 0;
    while i < texts.Length
      invariant 0 <= i <= texts.Length
      invariant forall j :: 0 <= j < i ==> !us[j].Throw?
      invariant forall j :: 0 <= j < i ==> texts[j] == Effect(us[j], old(texts[j]))
      invariant forall j :: i <= j < texts.Length ==> texts[j] == old(texts[j])
    {
      if us[i].Throw? {
        assert Halt(us) == i;
        return Some(us[i].message);
      } else if us[i].Write? {
        texts[i] := us[i].text;
      }
      i := i + 1;
    }
    assert Halt(us) == |us|;
    escaped := None;
  }
}
