/** Template strings: literal text with interpolated form fields. Both the
    language-model prompts and the HTML mail bodies are template literals
    over the applicant's fields, and what the application relies on is which
    fields each one embeds. */
module Template {
  import opened Form
  import opened Text

  /** One piece of a template literal: fixed text, or `${field}`. */
  datatype Piece = Lit(text: string) | Slot(field: Field)

  /** The value of a piece under a valuation of the fields. */
  function PieceText(p: Piece, value: Field -> string): string {
    match p
    case Lit(t) => t
    case Slot(f) => value(f)
  }

  /** The string the template literal evaluates to. */
  function Render(t: seq<Piece>, value: Field -> string): string {
    if t == [] then "" else PieceText(t[0], value) + Render(t[1..], value)
  }

  /** Rendering a template that interpolates `f` yields a string that
      contains the value of `f`. */
  lemma {:induction false} RenderContains(t: seq<Piece>, value: Field -> string, f: Field)
    requires Slot(f) in t
    ensures IsInfix(value(f), Render(t, value))
  {
    var head := PieceText(t[0], value);
    var rest := Render(t[1..], value);
    if t[0] == Slot(f) {
      assert InfixAt(value(f), Render(t, value), 0);
    } else {
      assert Slot(f) in t[1..];
      RenderContains(t[1..], value, f);
      var i :| InfixAt(value(f), rest, i);
      assert (head + rest)[|head| + i..|head| + i + |value(f)|] == rest[i..i + |value(f)|];
      assert InfixAt(value(f), Render(t, value), |head| + i);
    }
  }

  /** The rendered string depends only on the fields the template
      interpolates: valuations that agree on them render the same. */
  lemma {:induction false} RenderIgnores(t: seq<Piece>, v1: Field -> string, v2: Field -> string)
    requires forall f :: Slot(f) in t ==> v1(f) == v2(f)
    ensures Render(t, v1) == Render(t, v2)
  {
    if t != [] {
      assert forall f :: Slot(f) in t[1..] ==> Slot(f) in t;
      RenderIgnores(t[1..], v1, v2);
    }
  }
}
