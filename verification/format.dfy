/** The part of Ruby's `Kernel#format` that the guest templates use: literal
    text plus named references `%<name>s` (any value, as text) and
    `%<name>d` (an integer, in decimal), resolved against a hash of values.
    `Format` is the single left-to-right pass over the format string;
    `Render` is the same job on a template already split into segments. */
module RubyFormat {
  import opened Results
  import Text
  import Decimal

  /** One piece of a template. */
  datatype Segment =
    | Lit(text: string)
    | StrField(name: string)
    | IntField(name: string)

  /** A value bound to a name in the hash given to `format`. */
  datatype Value = Str(s: string) | Int(i: int)

  datatype FormatError =
      /** a '%' that does not start `%<name>s` or `%<name>d` */
    | UnsupportedDirective
      /** `%<` with no closing '>' or no conversion after it */
    | UnterminatedName
      /** a referenced name that the hash does not bind (Ruby's KeyError) */
    | MissingKey(name: string)
      /** `%<name>d` where `name` is bound to text */
    | NotAnInteger(name: string)

  /** Format-string text of one segment. */
  function ShowSegment(g: Segment): string {
    match g
    case Lit(t) => t
    case StrField(n) => "%<" + n + ">s"
    case IntField(n) => "%<" + n + ">d"
  }

  /** Format-string text of a template. */
  function Show(t: seq<Segment>): string
    decreases |t|
  {
    if |t| == 0 then "" else ShowSegment(t[0]) + Show(t[1..])
  }

  /** A segment whose text reads back as itself: literals hold no '%' and
      names no '>'. */
  predicate WellFormedSegment(g: Segment) {
    match g
    case Lit(t) => '%' !in t
    case StrField(n) => '>' !in n
    case IntField(n) => '>' !in n
  }

  predicate WellFormed(t: seq<Segment>) {
    forall i :: 0 <= i < |t| ==> WellFormedSegment(t[i])
  }

  /** Concatenation of two partial texts; the first failure wins. */
  function Join(a: Result<string, FormatError>, b: Result<string, FormatError>): (r: Result<string, FormatError>)
  {
    if a.Failure? then a
    else if b.Failure? then b
    else Success(a.value + b.value)
  }

  /** Reads the name of the reference that the '%' at the front of `s`
      begins: the text between `%<` and the first '>' after it. */
  function ReadName(s: string): (r: Result<string, FormatError>)
    requires |s| > 0 && s[0] == '%'
    ensures r.Success? ==> '>' !in r.value && Text.IsPrefix("%<" + r.value + ">", s)
    ensures r.Failure? <==> !Text.IsPrefix("%<", s) || '>' !in s[2..]
    ensures r.Failure? ==> r.error == (if Text.IsPrefix("%<", s) then UnterminatedName else UnsupportedDirective)
  {
    if |s| < 2 || s[1] != '<' then
      Failure(UnsupportedDirective)
    else
      assert s[..2] == "%<";
      var j := Text.IndexOf(s[2..], '>');
      if 2 + j >= |s| then
        Failure(UnterminatedName)
      else
        var name := s[2..2 + j];
        assert s[2..][..j] == name;
        assert s[..|name| + 3] == "%<" + name + ">";
        Success(name)
  }

  /** Reads the whole reference that the '%' at the front of `s` begins:
      its name, then the conversion character after the '>'. */
  function ReadDirective(s: string): (r: Result<Segment, FormatError>)
    requires |s| > 0 && s[0] == '%'
    ensures r.Success? ==> !r.value.Lit? && WellFormedSegment(r.value)
    ensures r.Success? ==> ReadName(s) == Success(r.value.name)
    ensures r.Success? ==> Text.IsPrefix(ShowSegment(r.value), s)
  {
    var name :- ReadName(s);
    var k := |name| + 3;
    if k >= |s| then
      Failure(UnterminatedName)
    else
      assert s[..k + 1] == s[..k] + [s[k]];
      if s[k] == 's' then
        Success(StrField(name))
      else if s[k] == 'd' then
        Success(IntField(name))
      else
        Failure(UnsupportedDirective)
  }

  /** Text of one segment with its reference resolved against `values`:
      text as it is, an integer in canonical decimal. */
  function RenderSegment(g: Segment, values: map<string, Value>): (r: Result<string, FormatError>)
    ensures r.Failure? <==> !g.Lit? && (g.name !in values || (g.IntField? && values[g.name].Str?))
    ensures r.Failure? ==> !g.Lit? && r.error == (if g.name !in values then MissingKey(g.name) else NotAnInteger(g.name))
    ensures r.Success? && g.Lit? ==> r.value == g.text
    ensures r.Success? && !g.Lit? && values[g.name].Str? ==> r.value == values[g.name].s
    ensures r.Success? && !g.Lit? && values[g.name].Int? ==>
      Decimal.IsCanonical(r.value) && Decimal.IntValue(r.value) == values[g.name].i
  {
    match g
    case Lit(t) => Success(t)
    case StrField(n) =>
      if n !in values then Failure(MissingKey(n))
      else
        (match values[n]
         case Str(v) => Success(v)
         case Int(i) => Decimal.IntRoundTrip(i); Success(Decimal.FromInt(i)))
    case IntField(n) =>
      if n !in values then Failure(MissingKey(n))
      else
        match values[n]
        case Int(i) => Decimal.IntRoundTrip(i); Success(Decimal.FromInt(i))
        case Str(_) => Failure(NotAnInteger(n))
  }

  /** Ruby's `format(s, values)` restricted to the directives above: copies
      text, replaces each reference as it is met, and stops at the first
      directive it cannot read or resolve. As in Ruby, a name is looked up
      as soon as `%<name>` is read, before the conversion after it. Inserted values are never
      scanned again. */
  function Format(s: string, values: map<string, Value>): (r: Result<string, FormatError>)
    ensures '%' !in s ==> r == Success(s)
    decreases |s|
  {
    if |s| == 0 then
      Success("")
    else if s[0] != '%' then
      assert [s[0]] + s[1..] == s;
      assert forall c :: c in s[1..] ==> c in s;
      var rest :- Format(s[1..], values);
      Success([s[0]] + rest)
    else
      var name :- ReadName(s);
      if name !in values then
        Failure(MissingKey(name))
      else
        var g :- ReadDirective(s);
        var text :- RenderSegment(g, values);
        var rest :- Format(s[|ShowSegment(g)|..], values);
        Success(text + rest)
  }

  /** Renders a template segment by segment. */
  function Render(t: seq<Segment>, values: map<string, Value>): (r: Result<string, FormatError>)
    ensures r.Success? <==> forall i :: 0 <= i < |t| ==> RenderSegment(t[i], values).Success?
    ensures r.Failure? ==>
      exists i :: 0 <= i < |t| && RenderSegment(t[i], values) == Failure(r.error)
                  && forall j :: 0 <= j < i ==> RenderSegment(t[j], values).Success?
    decreases |t|
  {
    if |t| == 0 then
      Success("")
    else
      var head :- RenderSegment(t[0], values);
      var tail :- Render(t[1..], values);
      Success(head + tail)
  }

  /** `Join` is associative, like the concatenation it lifts. */
  lemma JoinAssoc(a: Result<string, FormatError>, b: Result<string, FormatError>, c: Result<string, FormatError>)
    ensures Join(a, Join(b, c)) == Join(Join(a, b), c)
  {
    if a.Success? && b.Success? && c.Success? {
      assert a.value + (b.value + c.value) == (a.value + b.value) + c.value;
    }
  }

  /** One step of `Render`. */
  lemma RenderCons(t: seq<Segment>, values: map<string, Value>)
    requires |t| > 0
    ensures Render(t, values) == Join(RenderSegment(t[0], values), Render(t[1..], values))
  {
  }

  /** The name of a printed reference is read back, whatever follows its '>'. */
  lemma ReadNameOf(n: string, tail: string)
    requires '>' !in n
    ensures ReadName("%<" + n + ">" + tail) == Success(n)
  {
    var s := "%<" + n + ">" + tail;
    assert s[2..] == n + (">" + tail);
    Text.IndexOfAfter(n, ">" + tail, '>');
    assert s[2..2 + |n|] == n;
  }

  /** A reference printed in front of any text is read back. */
  lemma ReadShow(g: Segment, tail: string)
    requires !g.Lit? && WellFormedSegment(g)
    ensures ReadDirective(ShowSegment(g) + tail) == Success(g)
  {
    var c := if g.StrField? then 's' else 'd';
    var s := ShowSegment(g) + tail;
    assert s == "%<" + g.name + ">" + ([c] + tail);
    ReadNameOf(g.name, [c] + tail);
    assert s[|g.name| + 3] == c;
  }

  /** An unbound name fails with `MissingKey` whatever follows its '>':
      nothing, an unsupported conversion or a supported one. */
  lemma KeyErrorFirst(name: string, tail: string, values: map<string, Value>)
    requires '>' !in name && name !in values
    ensures Format("%<" + name + ">" + tail, values) == Failure(MissingKey(name))
  {
    ReadNameOf(name, tail);
  }

  /** One character other than '%' is copied through. */
  lemma FormatCharThen(c: char, rest: string, values: map<string, Value>)
    requires c != '%'
    ensures Format([c] + rest, values) == Join(Success([c]), Format(rest, values))
  {
    assert ([c] + rest)[1..] == rest;
  }

  /** Text without '%' is copied through, whatever follows it. */
  lemma {:induction false} FormatLiteralThen(x: string, rest: string, values: map<string, Value>)
    requires '%' !in x
    ensures Format(x + rest, values) == Join(Success(x), Format(rest, values))
    decreases |x|
  {
    if |x| > 0 {
      assert x + rest == [x[0]] + (x[1..] + rest);
      FormatCharThen(x[0], x[1..] + rest, values);
      FormatLiteralThen(x[1..], rest, values);
      JoinAssoc(Success([x[0]]), Success(x[1..]), Format(rest, values));
      assert [x[0]] + x[1..] == x;
    } else {
      assert x + rest == rest;
      var f := Format(rest, values);
      if f.Success? {
        assert x + f.value == f.value;
      }
    }
  }

  /** Formatting the text of one well-formed segment followed by more text
      renders the segment, then formats the rest. */
  lemma FormatSegmentThen(g: Segment, rest: string, values: map<string, Value>)
    requires WellFormedSegment(g)
    ensures Format(ShowSegment(g) + rest, values) == Join(RenderSegment(g, values), Format(rest, values))
  {
    if g.Lit? {
      FormatLiteralThen(g.text, rest, values);
    } else {
      var s := ShowSegment(g) + rest;
      ReadShow(g, rest);
      assert s[|ShowSegment(g)|..] == rest;
    }
  }

  /** Formatting the text of a well-formed template followed by more text
      renders the template, then formats the rest. */
  lemma {:induction false} FormatShowThen(t: seq<Segment>, rest: string, values: map<string, Value>)
    requires WellFormed(t)
    ensures Format(Show(t) + rest, values) == Join(Render(t, values), Format(rest, values))
    decreases |t|
  {
    if |t| > 0 {
      var tail := Show(t[1..]) + rest;
      assert Show(t) + rest == ShowSegment(t[0]) + tail;
      FormatSegmentThen(t[0], tail, values);
      FormatShowThen(t[1..], rest, values);
      JoinAssoc(RenderSegment(t[0], values), Render(t[1..], values), Format(rest, values));
      RenderCons(t, values);
    } else {
      assert Show(t) + rest == rest;
      var f := Format(rest, values);
      if f.Success? {
        assert "" + f.value == f.value;
      }
    }
  }

  /** `Format` of a template's text agrees with `Render` of the template. */
  lemma FormatShow(t: seq<Segment>, values: map<string, Value>)
    requires WellFormed(t)
    ensures Format(Show(t), values) == Render(t, values)
  {
    FormatShowThen(t, "", values);
    assert Show(t) + "" == Show(t);
    var r := Render(t, values);
    if r.Success? {
      assert r.value + "" == r.value;
    }
  }

  /** Rendering a concatenation concatenates the renderings. */
  lemma {:induction false} RenderAppend(a: seq<Segment>, b: seq<Segment>, values: map<string, Value>)
    ensures Render(a + b, values) == Join(Render(a, values), Render(b, values))
    decreases |a|
  {
    if |a| > 0 {
      assert (a + b)[1..] == a[1..] + b;
      RenderAppend(a[1..], b, values);
      JoinAssoc(RenderSegment(a[0], values), Render(a[1..], values), Render(b, values));
      RenderCons(a, values);
      RenderCons(a + b, values);
    } else {
      assert a + b == b;
      var rb := Render(b, values);
      if rb.Success? {
        assert "" + rb.value == rb.value;
      }
    }
  }
}
