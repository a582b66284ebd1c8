/** Terminal styling (src/utils.rs). The colouring crate and `console::strip_ansi_codes`
    are foreign code; the model leaves both uninterpreted. */
module Utils {

  /** The colours the menus paint their choices in. */
  datatype Colour = Green | BrightGreen | Yellow | BrightYellow | BrightRed

  /** The two foreign styling functions: `paint` renders a text in a colour,
      `strip` is `console::strip_ansi_codes` applied to a whole string
      (`strip_colors` of src/utils.rs:3-5 is exactly `strip`). */
  datatype Styling = Styling(paint: (Colour, string) -> string, strip: string -> string)

  /** The one fact about the foreign functions that the round trips need:
      stripping a painted text gives the text back. */
  ghost predicate StripUndoesPaint(st: Styling) {
    forall c: Colour, s: string {:trigger st.paint(c, s)} :: st.strip(st.paint(c, s)) == s
  }

  /** Every element stripped, in order: the value `strip_vec_colors` returns. */
  function StripAll(st: Styling, xs: seq<string>): (ys: seq<string>)
    ensures |ys| == |xs|
  {
    if xs == [] then [] else [st.strip(xs[0])] + StripAll(st, xs[1..])
  }

  /** Element `i` of the result is `strip` of element `i` of the input, and of no other. */
  lemma {:induction false} StripAllAt(st: Styling, xs: seq<string>, i: nat)
    requires i < |xs|
    ensures StripAll(st, xs)[i] == st.strip(xs[i])
  {
    if i > 0 {
      StripAllAt(st, xs[1..], i - 1);
    }
  }

  /** Every element of the result is `strip` of the input element at its place. */
  lemma StripAllEach(st: Styling, xs: seq<string>)
    ensures forall i :: 0 <= i < |xs| ==> StripAll(st, xs)[i] == st.strip(xs[i])
  {
    forall i | 0 <= i < |xs|
      ensures StripAll(st, xs)[i] == st.strip(xs[i])
    {
      StripAllAt(st, xs, i);
    }
  }

  /** Stripping works element by element: it distributes over concatenation. */
  lemma {:induction false} StripAllAppend(st: Styling, xs: seq<string>, ys: seq<string>)
    ensures StripAll(st, xs + ys) == StripAll(st, xs) + StripAll(st, ys)
  {
    if xs != [] {
      assert (xs + ys)[0] == xs[0] && (xs + ys)[1..] == xs[1..] + ys;
      StripAllAppend(st, xs[1..], ys);
      assert StripAll(st, xs + ys) == [st.strip(xs[0])] + StripAll(st, xs[1..] + ys);
    } else {
      assert xs + ys == ys;
    }
  }

  /** Painting every text and then stripping the result gives the texts back,
      when stripping undoes painting. */
  lemma {:induction false} StripAllPainted(st: Styling, c: Colour, xs: seq<string>, ys: seq<string>)
    requires StripUndoesPaint(st)
    requires |ys| == |xs|
    requires forall i :: 0 <= i < |xs| ==> ys[i] == st.paint(c, xs[i])
    ensures StripAll(st, ys) == xs
  {
    if xs != [] {
      assert st.strip(st.paint(c, xs[0])) == xs[0];
      StripAllPainted(st, c, xs[1..], ys[1..]);
    }
  }

  /** `strip_vec_colors` (src/utils.rs:7-16): overwrites each element of its
      (owned) vector with its stripped form and returns the vector. */
  method StripVecColors(st: Styling, input: seq<string>) returns (output: seq<string>)
    ensures output == StripAll(st, input)
  {
    output := input;
    var i := 0;
    while i < |output|
      invariant 0 <= i <= |output| == |input|
      invariant output[..i] == StripAll(st, input[..i])
      invariant output[i..] == input[i..]
    {
      StripAllAppend(st, input[..i], [input[i]]);
      assert input[..i + 1] == input[..i] + [input[i]];
      output := output[i := st.strip(output[i])];
      i := i + 1;
    }
    assert input[..i] == input;
  }
}
