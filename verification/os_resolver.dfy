/** Resolution of a Vagrant box name to the guest OS family whose network
    configuration applies (`_get_os_symbol` in lib/guest_config.rb). */
module OsResolver {
  import opened Results
  import Text

  /** The OS families the registry knows. */
  datatype OsTag = Redhat7 | Redhat8 | Ubuntu

  /** A box-name pattern and the family it selects. */
  datatype Rule = Rule(pattern: string, tag: OsTag)

  datatype ResolveError = UnrecognizedBox(box: string)

  /** The patterns in priority order: the source's hash literal, iterated in
      insertion order. */
  function Rules(): seq<Rule>
  {
    [ Rule("ubuntu", Ubuntu),
      Rule("centos", Redhat7),
      Rule("rhel7", Redhat7),
      Rule("almalinux/8", Redhat8),
      Rule("rhel8", Redhat8),
      Rule("rocky8", Redhat8) ]
  }

  /** The shape of the pattern table: every family is selected by some
      pattern and only the three families are; no pattern is empty; and
      the patterns are distinct, as keys of a hash are. */
  lemma RulesShape()
    ensures (set i | 0 <= i < |Rules()| :: Rules()[i].tag) == {Ubuntu, Redhat7, Redhat8}
    ensures forall i :: 0 <= i < |Rules()| ==> |Rules()[i].pattern| > 0
    ensures forall i, j :: 0 <= i < j < |Rules()| ==> Rules()[i].pattern != Rules()[j].pattern
  {
    var rules := Rules();
    assert rules[0].tag == Ubuntu && rules[1].tag == Redhat7 && rules[3].tag == Redhat8;
  }

  /** Rule `i` of `rules` applies to `box`. */
  ghost predicate Matches(rules: seq<Rule>, i: int, box: string)
  {
    0 <= i < |rules| && Text.Occurs(rules[i].pattern, box)
  }

  /** Index of the first rule whose pattern occurs in `box`, if any. */
  function FirstMatch(rules: seq<Rule>, box: string): (r: Option<nat>)
    ensures r.Some? ==> Matches(rules, r.value, box)
    ensures r.Some? ==> forall j :: 0 <= j < r.value ==> !Matches(rules, j, box)
    ensures r.None? <==> forall j :: 0 <= j < |rules| ==> !Matches(rules, j, box)
    decreases |rules|
  {
    if |rules| == 0 then
      None
    else if Text.Includes(box, rules[0].pattern) then
      assert Matches(rules, 0, box);
      Some(0)
    else
      assert !Matches(rules, 0, box);
      assert forall j :: 1 <= j < |rules| ==>
        (Matches(rules, j, box) <==> Matches(rules[1..], j - 1, box));
      match FirstMatch(rules[1..], box)
      case None => None
      case Some(i) =>
        assert Matches(rules, i + 1, box);
        Some(i + 1)
  }

  /** The OS family of `box`: the tag of the first rule whose pattern occurs
      in it, or an error naming the box when none does. */
  function Resolve(box: string): (r: Result<OsTag, ResolveError>)
    ensures r.Failure? <==> forall j :: 0 <= j < |Rules()| ==> !Matches(Rules(), j, box)
    ensures r.Failure? ==> r.error == UnrecognizedBox(box)
    ensures r.Success? ==>
      exists i :: Matches(Rules(), i, box) && r.value == Rules()[i].tag
                  && forall j :: 0 <= j < i ==> !Matches(Rules(), j, box)
  {
    match FirstMatch(Rules(), box)
    case None => Failure(UnrecognizedBox(box))
    case Some(i) => Success(Rules()[i].tag)
  }

  /** An earlier rule wins: once rule `i` applies, the result is the tag of
      rule `i` or of a rule before it, never of a later one. */
  lemma {:induction false} EarlierRuleWins(box: string, i: nat)
    requires Matches(Rules(), i, box)
    ensures Resolve(box).Success?
    ensures exists k :: 0 <= k <= i && Resolve(box).value == Rules()[k].tag
                        && Matches(Rules(), k, box)
  {
    var k :| Matches(Rules(), k, box) && Resolve(box).value == Rules()[k].tag
             && forall j :: 0 <= j < k ==> !Matches(Rules(), j, box);
    assert k <= i;
  }

  /** A box whose name contains both "centos" and "rocky8" (and not
      "ubuntu") resolves to the RHEL 7 family. */
  lemma CentosBeforeRocky(box: string)
    requires Text.Occurs("centos", box) && Text.Occurs("rocky8", box)
    requires !Text.Occurs("ubuntu", box)
    ensures Resolve(box) == Success(Redhat7)
  {
    assert Matches(Rules(), 1, box);
    assert !Matches(Rules(), 0, box);
  }

  /** Rules out the first `|missing|` rules for `box`: `missing[j]` is a
      character of rule `j`'s pattern that `box` lacks. */
  lemma RulesOut(box: string, missing: string)
    requires |missing| <= |Rules()|
    requires forall j :: 0 <= j < |missing| ==> missing[j] in Rules()[j].pattern && missing[j] !in box
    ensures forall j :: 0 <= j < |missing| ==> !Matches(Rules(), j, box)
  {
    forall j | 0 <= j < |missing|
      ensures !Matches(Rules(), j, box)
    {
      if Matches(Rules(), j, box) {
        Text.OccursHasChars(Rules()[j].pattern, box, missing[j]);
      }
    }
  }

  /** Rule `i` applies to `box` because `box` is its pattern between `before` and `after`. */
  lemma RuleAt(box: string, i: nat, before: string, after: string)
    requires i < |Rules()| && box == before + Rules()[i].pattern + after
    ensures Matches(Rules(), i, box)
  {
    assert Text.IsPrefix(Rules()[i].pattern, box[|before|..]);
  }

  /** Sample box names from the Vagrant catalogue. */
  lemma ResolveCentos(box: string)
    requires box == "centos/7-x86_64"
    ensures Resolve(box) == Success(Redhat7)
  {
    RulesOut(box, "u");
    RuleAt(box, 1, "", "/7-x86_64");
    ResolvesTo(box, 1);
  }

  lemma ResolveRocky(box: string)
    requires box == "generic/rocky8"
    ensures Resolve(box) == Success(Redhat8)
  {
    RockyMisses(box);
    RuleAt(box, 5, "generic/", "");
    ResolvesTo(box, 5);
  }

  lemma RockyMisses(box: string)
    requires box == "generic/rocky8"
    ensures forall j :: 0 <= j < 5 ==> !Matches(Rules(), j, box)
  {
    RulesOut(box, "ut7xl");
  }

  lemma ResolveUbuntu(box: string)
    requires box == "bento/ubuntu-20.04"
    ensures Resolve(box) == Success(Ubuntu)
  {
    RuleAt(box, 0, "bento/", "-20.04");
    ResolvesTo(box, 0);
  }

  lemma ResolveDebian(box: string)
    requires box == "debian/bullseye64"
    ensures Resolve(box) == Failure(UnrecognizedBox(box))
  {
    DebianMisses(box);
  }

  lemma DebianMisses(box: string)
    requires box == "debian/bullseye64"
    ensures forall j :: 0 <= j < |Rules()| ==> !Matches(Rules(), j, box)
  {
    assert 't' !in box && 'c' !in box && 'r' !in box && 'm' !in box;
    RulesOut(box, "tcrmrr");
  }

  /** The first applicable rule is unique. */
  lemma FirstMatchIs(rules: seq<Rule>, box: string, i: nat)
    requires Matches(rules, i, box)
    requires forall j :: 0 <= j < i ==> !Matches(rules, j, box)
    ensures FirstMatch(rules, box) == Some(i)
  {
    var r := FirstMatch(rules, box);
    assert r.Some?;
    assert !(r.value < i);
    assert !(r.value > i);
  }

  /** When rule `i` is the first that applies, `box` resolves to its tag. */
  lemma ResolvesTo(box: string, i: nat)
    requires Matches(Rules(), i, box)
    requires forall j :: 0 <= j < i ==> !Matches(Rules(), j, box)
    ensures Resolve(box) == Success(Rules()[i].tag)
  {
    FirstMatchIs(Rules(), box, i);
  }
}
