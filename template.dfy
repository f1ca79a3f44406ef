// A template as the interpolation regexes see it: a run of literal characters
// and `{key}` placeholders. Both interpolation functions scan a text into
// pieces and render the pieces back with the placeholders substituted.
module Template {

  datatype Piece = Lit(c: char) | Hole(key: string)

  /** The text a piece was scanned from. */
  function Source(p: Piece): string {
    match p
    case Lit(c) => [c]
    case Hole(key) => "{" + key + "}"
  }

  /** The text a sequence of pieces was scanned from. */
  function Unparse(ps: seq<Piece>): string
    decreases |ps|
  {
    if ps == [] then "" else Source(ps[0]) + Unparse(ps[1..])
  }

  lemma UnparseCons(p: Piece, ps: seq<Piece>)
    ensures Unparse([p] + ps) == Source(p) + Unparse(ps)
  {
    assert ([p] + ps)[1..] == ps;
  }

  /** Unparsing a piece followed by pieces that spell `rest`. */
  lemma UnparseFront(ps: seq<Piece>, p: Piece, tail: seq<Piece>, rest: string)
    requires ps == [p] + tail && Unparse(tail) == rest
    ensures Unparse(ps) == Source(p) + rest
  {
    UnparseCons(p, tail);
  }

  lemma Rejoin(t: string, n: nat)
    requires n <= |t|
    ensures t[..n] + t[n..] == t
  {
  }

  /** `{` then `}` then `x` is `{}` then `x`. */
  lemma OpenClose(x: string)
    ensures ['{'] + (['}'] + x) == "{}" + x
  {
  }
}
