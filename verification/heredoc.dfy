/** Templates written as Ruby squiggly heredocs (`<<~'DOC'`): a list of
    lines, each ended by a newline, with no interpolation, so that each
    line is a template of its own. */
module Heredocs {
  import opened Results
  import Text
  import opened RubyFormat

  /** The template of the whole heredoc: every line followed by a newline. */
  function Heredoc(lines: seq<seq<Segment>>): seq<Segment>
    decreases |lines|
  {
    if |lines| == 0 then [] else lines[0] + [Lit("\n")] + Heredoc(lines[1..])
  }

  /** Each line is a well-formed template. */
  predicate WellFormedLines(lines: seq<seq<Segment>>) {
    forall k :: 0 <= k < |lines| ==> WellFormed(lines[k])
  }

  /** The format-string text of each line. */
  function ShowLines(lines: seq<seq<Segment>>): (texts: seq<string>)
    ensures |texts| == |lines|
    ensures forall k :: 0 <= k < |lines| ==> texts[k] == Show(lines[k])
  {
    seq(|lines|, k requires 0 <= k < |lines| => Show(lines[k]))
  }

  /** Each line rendered on its own; the first failing line stops it. */
  function RenderLines(lines: seq<seq<Segment>>, values: map<string, Value>): (r: Result<seq<string>, FormatError>)
    ensures r.Success? <==> forall k :: 0 <= k < |lines| ==> Render(lines[k], values).Success?
    ensures r.Success? ==> |r.value| == |lines|
    ensures r.Success? ==>
      forall k :: 0 <= k < |lines| ==> Render(lines[k], values) == Success(r.value[k])
    decreases |lines|
  {
    if |lines| == 0 then
      Success([])
    else
      var first :- Render(lines[0], values);
      var rest :- RenderLines(lines[1..], values);
      Success([first] + rest)
  }

  /** Lines that each render to the matching expected line render,
      together, to exactly the expected lines. */
  lemma RenderLinesAre(lines: seq<seq<Segment>>, values: map<string, Value>, expected: seq<string>)
    requires |lines| == |expected|
    requires forall k :: 0 <= k < |lines| ==> Render(lines[k], values) == Success(expected[k])
    ensures RenderLines(lines, values) == Success(expected)
  {
    var r := RenderLines(lines, values);
    assert r.Success?;
    assert forall k :: 0 <= k < |expected| ==> r.value[k] == expected[k];
    assert r.value == expected;
  }

  /** `Show` distributes over concatenation. */
  lemma {:induction false} ShowAppend(a: seq<Segment>, b: seq<Segment>)
    ensures Show(a + b) == Show(a) + Show(b)
    decreases |a|
  {
    if |a| > 0 {
      assert (a + b)[1..] == a[1..] + b;
      ShowAppend(a[1..], b);
    } else {
      assert a + b == b;
    }
  }

  /** The text of a heredoc template is its lines' texts, newline-ended. */
  lemma {:induction false} ShowHeredoc(lines: seq<seq<Segment>>)
    ensures Show(Heredoc(lines)) == Text.Unlines(ShowLines(lines))
    decreases |lines|
  {
    if |lines| > 0 {
      ShowAppend(lines[0] + [Lit("\n")], Heredoc(lines[1..]));
      ShowAppend(lines[0], [Lit("\n")]);
      ShowHeredoc(lines[1..]);
      assert ShowLines(lines)[1..] == ShowLines(lines[1..]);
      assert Show([Lit("\n")]) == "\n";
    }
  }

  /** A heredoc of well-formed lines is a well-formed template. */
  lemma {:induction false} HeredocWellFormed(lines: seq<seq<Segment>>)
    requires WellFormedLines(lines)
    ensures WellFormed(Heredoc(lines))
    decreases |lines|
  {
    if |lines| > 0 {
      HeredocWellFormed(lines[1..]);
      assert WellFormed(lines[0]);
      assert WellFormedSegment(Lit("\n"));
    }
  }

  /** A line followed by its newline renders to the line's text and a newline. */
  lemma RenderLineNewline(line: seq<Segment>, values: map<string, Value>)
    ensures Render(line + [Lit("\n")], values) == Join(Render(line, values), Success("\n"))
  {
    RenderAppend(line, [Lit("\n")], values);
    RenderCons([Lit("\n")], values);
    assert [Lit("\n")][1..] == [];
    assert "\n" + "" == "\n";
  }

  /** Rendering a heredoc renders every line and ends each with a newline. */
  lemma {:induction false} RenderHeredoc(lines: seq<seq<Segment>>, values: map<string, Value>)
    ensures RenderLines(lines, values).Success? ==>
      Render(Heredoc(lines), values) == Success(Text.Unlines(RenderLines(lines, values).value))
    ensures RenderLines(lines, values).Failure? ==>
      Render(Heredoc(lines), values) == Failure(RenderLines(lines, values).error)
    decreases |lines|
  {
    if |lines| > 0 {
      RenderAppend(lines[0] + [Lit("\n")], Heredoc(lines[1..]), values);
      RenderLineNewline(lines[0], values);
      RenderHeredoc(lines[1..], values);
      var r := RenderLines(lines, values);
      if r.Success? {
        UnlinesCons(r.value);
        assert r.value[1..] == RenderLines(lines[1..], values).value;
      }
    }
  }

  lemma UnlinesCons(ls: seq<string>)
    requires |ls| > 0
    ensures Text.Unlines(ls) == ls[0] + "\n" + Text.Unlines(ls[1..])
  {
  }

  /** Formatting the text of a heredoc of well-formed lines produces the
      rendered lines, each ended by a newline. */
  lemma FormatHeredoc(lines: seq<seq<Segment>>, values: map<string, Value>)
    requires WellFormedLines(lines)
    ensures Format(Text.Unlines(ShowLines(lines)), values) ==
      (match RenderLines(lines, values)
       case Success(rendered) => Success(Text.Unlines(rendered))
       case Failure(e) => Failure(e))
  {
    ShowHeredoc(lines);
    HeredocWellFormed(lines);
    FormatShow(Heredoc(lines), values);
    RenderHeredoc(lines, values);
  }
}
