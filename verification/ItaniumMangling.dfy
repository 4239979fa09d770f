/** A fragment of the nested-name grammar of the Itanium C++ ABI, section 5.1, and why the reader inverts it. */
module ItaniumMangling {
  import opened Basics
  import opened Decimal
  import opened ItaniumScope

  /** A piece of a template argument list: a letter of a builtin type or qualifier, a name, or a nested list. */
  datatype Arg = Letter(c: char) | Named(name: string) | Group(args: seq<Arg>)

  datatype Component = Component(name: string, args: Option<seq<Arg>>)

  /** What may end a nested name: nothing, or the code of a constructor or destructor. */
  datatype Special = Ordinary | Code(letter: char, variant: Option<char>)

  predicate IsIdentifier(name: string) {
    name != "" && !IsDigit(name[0])
  }

  predicate WellFormedArg(a: Arg)
    decreases a
  {
    match a
    case Letter(c) => c != 'I' && c != 'E' && !IsDigit(c)
    case Named(name) => IsIdentifier(name)
    case Group(args) => WellFormedArgs(args)
  }

  predicate WellFormedArgs(args: seq<Arg>) {
    forall i :: 0 <= i < |args| ==> WellFormedArg(args[i])
  }

  predicate WellFormedComponent(c: Component) {
    IsIdentifier(c.name) && (c.args.Some? ==> WellFormedArgs(c.args.value))
  }

  predicate WellFormedSpecial(special: Special) {
    special.Code? ==> special.letter in "CD" && (special.variant.Some? ==> special.variant.value in "0123")
  }

  function NameText(name: string): string {
    NatText(|name|) + name
  }

  function ArgText(a: Arg): string
    decreases a
  {
    match a
    case Letter(c) => [c]
    case Named(name) => NameText(name)
    case Group(args) => "I" + ArgsText(args) + "E"
  }

  function ArgsText(args: seq<Arg>): string
    decreases args
  {
    if args == [] then "" else ArgText(args[0]) + ArgsText(args[1..])
  }

  function OptionalArgsText(args: Option<seq<Arg>>): string {
    if args.None? then "" else "I" + ArgsText(args.value) + "E"
  }

  function ComponentText(c: Component): string {
    NameText(c.name) + OptionalArgsText(c.args)
  }

  function ComponentsText(cs: seq<Component>): string {
    if cs == [] then "" else ComponentText(cs[0]) + ComponentsText(cs[1..])
  }

  function SpecialText(special: Special): string {
    if special.Ordinary? then ""
    else if special.variant.None? then [special.letter]
    else [special.letter, special.variant.value]
  }

  /** The mangled name of a function, up to the encoding of its parameters, which is `suffix`. */
  function Mangle(qualifiers: string, cs: seq<Component>, special: Special, suffix: string): string {
    Begun(qualifiers, cs, special, "E" + suffix)
  }

  /** A nested name that is begun, and whatever comes instead of its end. */
  function Begun(qualifiers: string, cs: seq<Component>, special: Special, tail: string): string {
    "_ZN" + (qualifiers + (ComponentsText(cs) + (SpecialText(special) + tail)))
  }

  function NamesOf(cs: seq<Component>): (r: seq<string>)
    ensures |r| == |cs|
  {
    if cs == [] then [] else [cs[0].name] + NamesOf(cs[1..])
  }

  // ----- a text standing at an index

  predicate At(s: string, i: nat, part: string) {
    i + |part| <= |s| && s[i..i + |part|] == part
  }

  lemma AtSplits(s: string, i: nat, a: string, b: string)
    requires At(s, i, a + b)
    ensures At(s, i, a) && At(s, i + |a|, b)
  {
    assert a == (a + b)[..|a|] && b == (a + b)[|a|..];
    assert s[i..i + |a + b|][..|a|] == s[i..i + |a|];
    assert s[i..i + |a + b|][|a|..] == s[i + |a|..i + |a| + |b|];
  }

  lemma AtChar(s: string, i: nat, c: char)
    requires At(s, i, [c])
    ensures i < |s| && s[i] == c
  {
    assert s[i] == s[i..i + 1][0];
  }

  lemma AtTwo(s: string, i: nat, a: char, b: char)
    requires At(s, i, [a, b])
    ensures i + 1 < |s| && s[i] == a && s[i + 1] == b
  {
    assert s[i] == s[i..i + 2][0] && s[i + 1] == s[i..i + 2][1];
  }

  lemma AtFirst(s: string, i: nat, part: string)
    requires At(s, i, part) && part != ""
    ensures i < |s| && s[i] == part[0]
  {
    assert s[i] == s[i..i + |part|][0];
  }

  lemma {:induction false} DigitsAt(s: string, i: nat, end: nat)
    requires i <= end <= |s| && AllDigits(s[i..end]) && (end < |s| ==> !IsDigit(s[end]))
    ensures DigitsEnd(s, i) == end
    decreases end - i
  {
    if i < end {
      assert s[i] == s[i..end][0] && s[i + 1..end] == s[i..end][1..];
      DigitsAt(s, i + 1, end);
    }
  }

  /** A counted name is read as the name and nothing more. */
  lemma NameAt(s: string, i: nat, name: string)
    requires IsIdentifier(name) && At(s, i, NameText(name))
    ensures i < |s| && IsDigit(s[i])
    ensures DigitsEnd(s, i) == i + |NatText(|name|)| && LengthAt(s, i) == |name|
    ensures DigitsEnd(s, i) + LengthAt(s, i) == i + |NameText(name)|
    ensures s[DigitsEnd(s, i)..i + |NameText(name)|] == name
  {
    ValueOfText(|name|);
    var number := NatText(|name|);
    AtSplits(s, i, number, name);
    CountedAt(s, i, i + |number|, number, name);
  }

  lemma CountedAt(s: string, i: nat, j: nat, number: string, name: string)
    requires number != "" && AllDigits(number) && Value(number) == |name| && IsIdentifier(name)
    requires At(s, i, number) && j == i + |number| && At(s, j, name)
    ensures i < |s| && IsDigit(s[i])
    ensures DigitsEnd(s, i) == j && LengthAt(s, i) == |name| && s[j..j + |name|] == name
  {
    AtFirst(s, i, number);
    AtFirst(s, j, name);
    DigitsAt(s, i, j);
  }

  // ----- template arguments

  lemma {:induction false} SkipArg(s: string, i: nat, a: Arg, depth: nat)
    requires WellFormedArg(a) && At(s, i, ArgText(a)) && depth > 0
    ensures SkipArgs(s, i, depth) == SkipArgs(s, i + |ArgText(a)|, depth)
    decreases a, 0
  {
    match a
    case Letter(c) =>
      AtChar(s, i, c);
    case Named(name) =>
      NameAt(s, i, name);
    case Group(args) =>
      SkipGroup(s, i, args, depth);
  }

  /** Brackets count each other out, however deep. */
  lemma {:induction false} SkipGroup(s: string, i: nat, args: seq<Arg>, depth: nat)
    requires WellFormedArgs(args) && At(s, i, "I" + ArgsText(args) + "E")
    ensures i < |s| && s[i] == 'I'
    ensures SkipArgs(s, i + 1, depth + 1) == SkipArgs(s, i + |ArgsText(args)| + 2, depth)
    decreases args, 1
  {
    AtSplits(s, i, "I" + ArgsText(args), "E");
    AtSplits(s, i, "I", ArgsText(args));
    AtChar(s, i, 'I');
    SkipAll(s, i + 1, args, depth + 1);
    AtChar(s, i + 1 + |ArgsText(args)|, 'E');
  }

  lemma {:induction false} SkipAll(s: string, i: nat, args: seq<Arg>, depth: nat)
    requires WellFormedArgs(args) && At(s, i, ArgsText(args)) && depth > 0
    ensures SkipArgs(s, i, depth) == SkipArgs(s, i + |ArgsText(args)|, depth)
    decreases args, 0
  {
    if args != [] {
      AtSplits(s, i, ArgText(args[0]), ArgsText(args[1..]));
      SkipArg(s, i, args[0], depth);
      SkipAll(s, i + |ArgText(args[0])|, args[1..], depth);
    }
  }

  // ----- names

  /** Where the next component, the constructor code or the closing E begins, there are no template arguments. */
  predicate StartsAnew(s: string, i: nat) {
    i <= |s| && (i < |s| ==> s[i] != 'I')
  }

  lemma SkipOptional(s: string, i: nat, end: nat, args: Option<seq<Arg>>)
    requires args.Some? ==> WellFormedArgs(args.value)
    requires At(s, i, OptionalArgsText(args)) && end == i + |OptionalArgsText(args)| && StartsAnew(s, end)
    ensures SkipOptionalArgs(s, i) == end
  {
    if args.Some? {
      SkipGroup(s, i, args.value, 0);
    }
  }

  lemma ReadName(s: string, i: nat, mid: nat, name: string, names: seq<string>)
    requires IsIdentifier(name) && At(s, i, NameText(name)) && mid == i + |NameText(name)|
    ensures ReadNames(s, i, names, false) == ReadNames(s, SkipOptionalArgs(s, mid), names + [name], false)
  {
    NameAt(s, i, name);
  }

  lemma NameThenArgs(s: string, i: nat, c: Component) returns (mid: nat)
    requires At(s, i, ComponentText(c))
    ensures At(s, i, NameText(c.name)) && mid == i + |NameText(c.name)|
    ensures At(s, mid, OptionalArgsText(c.args)) && mid + |OptionalArgsText(c.args)| == i + |ComponentText(c)|
  {
    mid := i + |NameText(c.name)|;
    AtSplits(s, i, NameText(c.name), OptionalArgsText(c.args));
  }

  lemma ReadComponent(s: string, i: nat, next: nat, c: Component, names: seq<string>)
    requires WellFormedComponent(c) && At(s, i, ComponentText(c))
    requires next == i + |ComponentText(c)| && StartsAnew(s, next)
    ensures ReadNames(s, i, names, false) == ReadNames(s, next, names + [c.name], false)
  {
    var mid := NameThenArgs(s, i, c);
    ReadName(s, i, mid, c.name, names);
    SkipOptional(s, mid, next, c.args);
  }

  /** A constructor or destructor code is noticed; one without a variant digit must not be followed by one. */
  lemma ReadSpecial(s: string, i: nat, after: nat, special: Special, names: seq<string>)
    requires WellFormedSpecial(special) && At(s, i, SpecialText(special)) && after == i + |SpecialText(special)|
    requires special.Code? && special.variant.None? ==> after >= |s| || !IsVariant(s[after])
    ensures ReadNames(s, i, names, false) == ReadNames(s, after, names, special.Code?)
    ensures special.Code? ==> i < |s| && s[i] in "CD"
  {
    if special.Code? {
      if special.variant.None? {
        AtChar(s, i, special.letter);
      } else {
        AtTwo(s, i, special.letter, special.variant.value);
      }
    }
  }

  predicate WellFormed(cs: seq<Component>) {
    forall k :: 0 <= k < |cs| ==> WellFormedComponent(cs[k])
  }

  lemma FirstText(s: string, i: nat, cs: seq<Component>) returns (next: nat)
    requires cs != [] && At(s, i, ComponentsText(cs))
    ensures At(s, i, ComponentText(cs[0])) && next == i + |ComponentText(cs[0])|
    ensures At(s, next, ComponentsText(cs[1..])) && next + |ComponentsText(cs[1..])| == i + |ComponentsText(cs)|
  {
    var first, rest := ComponentText(cs[0]), ComponentsText(cs[1..]);
    next := i + |first|;
    AtSplits(s, i, first, rest);
  }

  /** The first of several components, up to where the next begins. */
  lemma FirstComponent(s: string, i: nat, cs: seq<Component>, names: seq<string>) returns (next: nat)
    requires cs != [] && WellFormedComponent(cs[0]) && At(s, i, ComponentsText(cs))
    ensures At(s, next, ComponentsText(cs[1..])) && next + |ComponentsText(cs[1..])| == i + |ComponentsText(cs)|
    ensures i < |s| && IsDigit(s[i])
    ensures StartsAnew(s, next) ==> ReadNames(s, i, names, false) == ReadNames(s, next, names + [cs[0].name], false)
  {
    next := FirstText(s, i, cs);
    StartsWithDigit(s, i, cs[0]);
    if StartsAnew(s, next) {
      ReadComponent(s, i, next, cs[0], names);
    }
  }

  lemma StartsWithDigit(s: string, i: nat, c: Component)
    requires WellFormedComponent(c) && At(s, i, ComponentText(c))
    ensures i < |s| && IsDigit(s[i])
  {
    var mid := NameThenArgs(s, i, c);
    NameAt(s, i, c.name);
  }

  lemma {:induction false} ReadComponents(s: string, i: nat, cs: seq<Component>, end: nat, names: seq<string>)
    requires WellFormed(cs) && At(s, i, ComponentsText(cs)) && end == i + |ComponentsText(cs)|
    requires cs != [] ==> StartsAnew(s, end)
    ensures cs != [] ==> i < |s| && IsDigit(s[i])
    ensures ReadNames(s, i, names, false) == ReadNames(s, end, names + NamesOf(cs), false)
    decreases |cs|
  {
    if cs == [] {
      assert names + NamesOf(cs) == names;
    } else {
      var next := FirstComponent(s, i, cs, names);
      ReadComponents(s, next, cs[1..], end, names + [cs[0].name]);
      NamesStep(names, cs);
    }
  }

  lemma NamesStep(names: seq<string>, cs: seq<Component>)
    requires cs != []
    ensures names + [cs[0].name] + NamesOf(cs[1..]) == names + NamesOf(cs)
  {
  }

  predicate AreQualifiers(s: string) {
    forall k :: 0 <= k < |s| ==> s[k] in "KVRO"
  }

  lemma {:induction false} QualifiersAt(s: string, i: nat, qualifiers: string)
    requires AreQualifiers(qualifiers) && At(s, i, qualifiers)
    requires i + |qualifiers| < |s| ==> !IsQualifier(s[i + |qualifiers|])
    ensures SkipQualifiers(s, i) == i + |qualifiers|
    decreases |qualifiers|
  {
    if qualifiers != "" {
      AtFirst(s, i, qualifiers);
      assert qualifiers == [qualifiers[0]] + qualifiers[1..];
      AtSplits(s, i, [qualifiers[0]], qualifiers[1..]);
      QualifiersAt(s, i + 1, qualifiers[1..]);
    }
  }

  lemma FourParts(a: string, b: string, c: string, d: string, tail: string)
    ensures var s := a + (b + (c + (d + tail)));
            && a <= s && At(s, |a|, b) && At(s, |a| + |b|, c) && At(s, |a| + |b| + |c|, d)
            && s[|a| + |b| + |c| + |d|..] == tail
  {
    var t2 := d + tail;
    var t1 := c + t2;
    var t0 := b + t1;
    var s := a + t0;
    AtSplits(s, 0, a, t0);
    AtSplits(s, |a|, b, t1);
    AtSplits(s, |a| + |b|, c, t2);
    AtSplits(s, |a| + |b| + |c|, d, tail);
  }

  /** The qualifiers, components and code of a nested name stand in the text, up to `after`. */
  ghost predicate Nested(s: string, qualifiers: string, cs: seq<Component>, special: Special, after: nat) {
    && AreQualifiers(qualifiers) && WellFormed(cs) && WellFormedSpecial(special)
    && "_ZN" <= s && At(s, 3, qualifiers) && At(s, 3 + |qualifiers|, ComponentsText(cs))
    && At(s, 3 + |qualifiers| + |ComponentsText(cs)|, SpecialText(special))
    && after == 3 + |qualifiers| + |ComponentsText(cs)| + |SpecialText(special)|
  }

  lemma BegunIsNested(qualifiers: string, cs: seq<Component>, special: Special, tail: string) returns (after: nat)
    requires AreQualifiers(qualifiers) && WellFormed(cs) && WellFormedSpecial(special)
    ensures var s := Begun(qualifiers, cs, special, tail);
            Nested(s, qualifiers, cs, special, after) && after <= |s| && s[after..] == tail
  {
    FourParts("_ZN", qualifiers, ComponentsText(cs), SpecialText(special), tail);
    after := 3 + |qualifiers| + |ComponentsText(cs)| + |SpecialText(special)|;
  }

  /** What stands there is not taken for a part of the nested name before it. */
  ghost predicate Fresh(s: string, cs: seq<Component>, special: Special, after: nat) {
    after < |s| ==>
      && (special.Ordinary? && cs != [] ==> s[after] != 'I')
      && (special.Code? && special.variant.None? ==> !IsVariant(s[after]))
      && (special.Ordinary? && cs == [] ==> !IsQualifier(s[after]))
  }

  /** The reader comes to `after` with exactly those names. */
  lemma ReadNested(s: string, qualifiers: string, cs: seq<Component>, special: Special, after: nat)
    requires Nested(s, qualifiers, cs, special, after) && Fresh(s, cs, special, after)
    ensures ReadNames(s, SkipQualifiers(s, 3), [], false) == ReadNames(s, after, NamesOf(cs), special.Code?)
  {
    var start := 3 + |qualifiers|;
    ReadBegun(s, cs, special, start, start + |ComponentsText(cs)|, after);
    QualifiersAt(s, 3, qualifiers);
  }

  lemma ReadBegun(s: string, cs: seq<Component>, special: Special, start: nat, end: nat, after: nat)
    requires WellFormed(cs) && WellFormedSpecial(special) && Fresh(s, cs, special, after) && after <= |s|
    requires At(s, start, ComponentsText(cs)) && end == start + |ComponentsText(cs)|
    requires At(s, end, SpecialText(special)) && after == end + |SpecialText(special)|
    ensures start < |s| ==> !IsQualifier(s[start])
    ensures ReadNames(s, start, [], false) == ReadNames(s, after, NamesOf(cs), special.Code?)
  {
    var names := NamesOf(cs);
    ReadSpecial(s, end, after, special, names);
    assert cs != [] ==> StartsAnew(s, end);
    ReadFrom(s, cs, start, end, []);
  }

  lemma ReadFrom(s: string, cs: seq<Component>, start: nat, end: nat, none: seq<string>)
    requires WellFormed(cs) && none == [] && (cs != [] ==> StartsAnew(s, end))
    requires At(s, start, ComponentsText(cs)) && end == start + |ComponentsText(cs)|
    ensures cs != [] ==> start < |s| && IsDigit(s[start])
    ensures ReadNames(s, start, none, false) == ReadNames(s, end, NamesOf(cs), false)
  {
    ReadComponents(s, start, cs, end, none);
    assert none + NamesOf(cs) == NamesOf(cs);
  }

  lemma ScopeRead(s: string, after: nat, names: seq<string>, special: bool, innermost: bool)
    requires "_ZN" <= s && ReadNames(s, SkipQualifiers(s, 3), [], false) == ReadNames(s, after, names, special)
    ensures ReadNames(s, after, names, special) == None ==> Scope(s, innermost) == None
    ensures ReadNames(s, after, names, special) == Some(Names(names, special)) ==>
              Scope(s, innermost) == ScopeOf(names, special, innermost)
  {
  }

  lemma ScopeOfNames(cs: seq<Component>, special: Special, innermost: bool)
    ensures var names := NamesOf(if special.Code? || cs == [] then cs else cs[..|cs| - 1]);
            ScopeOf(NamesOf(cs), special.Code?, innermost)
            == if names == [] then None else Some(if innermost then names[|names| - 1] else Joined(names))
  {
    if cs != [] { NamesOfPrefix(cs, |cs| - 1); }
  }

  /**
   * The reader inverts the mangling, whatever follows the nested name: it gives all names but the last, or all
   * of them before a constructor or destructor code, and no scope if that leaves no name.
   */
  lemma ScopeOfMangled(qualifiers: string, cs: seq<Component>, special: Special, suffix: string, innermost: bool)
    requires AreQualifiers(qualifiers) && WellFormed(cs) && WellFormedSpecial(special)
    ensures var names := NamesOf(if special.Code? || cs == [] then cs else cs[..|cs| - 1]);
            Scope(Mangle(qualifiers, cs, special, suffix), innermost)
            == if names == [] then None else Some(if innermost then names[|names| - 1] else Joined(names))
  {
    var after := BegunIsNested(qualifiers, cs, special, "E" + suffix);
    ScopeAtEnd(Mangle(qualifiers, cs, special, suffix), qualifiers, cs, special, after, suffix, innermost);
  }

  lemma ScopeAtEnd(s: string, qualifiers: string, cs: seq<Component>, special: Special, after: nat, suffix: string,
                   innermost: bool)
    requires Nested(s, qualifiers, cs, special, after) && after <= |s| && s[after..] == "E" + suffix
    ensures var names := NamesOf(if special.Code? || cs == [] then cs else cs[..|cs| - 1]);
            Scope(s, innermost)
            == if names == [] then None else Some(if innermost then names[|names| - 1] else Joined(names))
  {
    assert s[after] == s[after..][0] == 'E';
    ReadNested(s, qualifiers, cs, special, after);
    ScopeRead(s, after, NamesOf(cs), special.Code?, innermost);
    ScopeOfNames(cs, special, innermost);
  }

  /** Joining is joining the joined parts. */
  lemma {:induction false} JoinedConcat(a: seq<string>, b: seq<string>)
    requires a != [] && b != []
    ensures Joined(a + b) == Joined(a) + ("::" + Joined(b))
  {
    if |a| == 1 {
      assert (a + b)[1..] == b;
      Regroup(a[0], "::", Joined(b));
    } else {
      assert (a + b)[1..] == a[1..] + b;
      JoinedConcat(a[1..], b);
      Regroup(a[0] + "::", Joined(a[1..]), "::" + Joined(b));
    }
  }

  // ----- texts that have no scope

  /** A text that does not begin like a nested name. */
  lemma NotNested(s: string, innermost: bool)
    requires !("_ZN" <= s)
    ensures Scope(s, innermost) == None
  {
  }

  lemma StopsAt(s: string, qualifiers: string, cs: seq<Component>, special: Special, after: nat, innermost: bool)
    requires Nested(s, qualifiers, cs, special, after) && Fresh(s, cs, special, after) && after <= |s|
    requires after == |s| || (!IsDigit(s[after]) && s[after] !in "CDE")
    ensures Scope(s, innermost) == None
  {
    ReadNested(s, qualifiers, cs, special, after);
    ScopeRead(s, after, NamesOf(cs), special.Code?, innermost);
  }

  /** A character where a name, a code or the closing E is due, and which is none of them. */
  lemma ForeignCharacter(qualifiers: string, cs: seq<Component>, special: Special, c: char, rest: string,
                         innermost: bool)
    requires AreQualifiers(qualifiers) && WellFormed(cs) && WellFormedSpecial(special)
    requires !IsDigit(c) && c !in "CDE"
    requires special.Ordinary? ==> if cs == [] then c !in "KVRO" else c != 'I'
    ensures Scope(Begun(qualifiers, cs, special, [c] + rest), innermost) == None
  {
    var s := Begun(qualifiers, cs, special, [c] + rest);
    var after := BegunIsNested(qualifiers, cs, special, [c] + rest);
    assert s[after] == s[after..][0] == c;
    StopsAt(s, qualifiers, cs, special, after, innermost);
  }

  /** A text that ends without the closing E. */
  lemma Unterminated(qualifiers: string, cs: seq<Component>, special: Special, innermost: bool)
    requires AreQualifiers(qualifiers) && WellFormed(cs) && WellFormedSpecial(special)
    ensures Scope(Begun(qualifiers, cs, special, ""), innermost) == None
  {
    var s := Begun(qualifiers, cs, special, "");
    var after := BegunIsNested(qualifiers, cs, special, "");
    assert |s[after..]| == 0;
    StopsAt(s, qualifiers, cs, special, after, innermost);
  }

  /** A length that leads past the end of the text. */
  lemma LengthPastEnd(qualifiers: string, cs: seq<Component>, n: nat, rest: string, innermost: bool)
    requires AreQualifiers(qualifiers) && WellFormed(cs) && n > |rest| && (rest != "" ==> !IsDigit(rest[0]))
    ensures Scope(Begun(qualifiers, cs, Ordinary, NatText(n) + rest), innermost) == None
  {
    var s := Begun(qualifiers, cs, Ordinary, NatText(n) + rest);
    var after := BegunIsNested(qualifiers, cs, Ordinary, NatText(n) + rest);
    ValueOfText(n);
    LengthAtEnd(s, after, NatText(n), rest);
    StopsAtLength(s, qualifiers, cs, after, innermost);
  }

  lemma StopsAtLength(s: string, qualifiers: string, cs: seq<Component>, after: nat, innermost: bool)
    requires Nested(s, qualifiers, cs, Ordinary, after) && after < |s| && IsDigit(s[after])
    requires DigitsEnd(s, after) + LengthAt(s, after) > |s|
    ensures Scope(s, innermost) == None
  {
    ReadNested(s, qualifiers, cs, Ordinary, after);
    ScopeRead(s, after, NamesOf(cs), false, innermost);
  }

  lemma LengthAtEnd(s: string, i: nat, number: string, rest: string)
    requires number != "" && AllDigits(number) && (rest != "" ==> !IsDigit(rest[0])) && Value(number) > |rest|
    requires i <= |s| && s[i..] == number + rest
    ensures i < |s| && IsDigit(s[i]) && DigitsEnd(s, i) + LengthAt(s, i) > |s|
  {
    var end := i + |number|;
    assert s[i..end] == number && s[end..] == rest;
    assert s[i] == number[0];
    assert rest != "" ==> s[end] == rest[0];
    DigitsAt(s, i, end);
  }

  /** Template arguments that are not closed. */
  lemma UnclosedArguments(qualifiers: string, cs: seq<Component>, name: string, args: seq<Arg>, innermost: bool)
    requires AreQualifiers(qualifiers) && WellFormed(cs) && IsIdentifier(name) && WellFormedArgs(args)
    ensures Scope(Begun(qualifiers, cs, Ordinary, NameText(name) + ("I" + ArgsText(args))), innermost) == None
  {
    var tail := NameText(name) + ("I" + ArgsText(args));
    var after := BegunIsNested(qualifiers, cs, Ordinary, tail);
    UnclosedAt(Begun(qualifiers, cs, Ordinary, tail), qualifiers, cs, name, args, after, innermost);
  }

  lemma UnclosedAt(s: string, qualifiers: string, cs: seq<Component>, name: string, args: seq<Arg>, after: nat,
                   innermost: bool)
    requires Nested(s, qualifiers, cs, Ordinary, after) && IsIdentifier(name) && WellFormedArgs(args)
    requires after <= |s| && s[after..] == NameText(name) + ("I" + ArgsText(args))
    ensures Scope(s, innermost) == None
  {
    UnclosedTail(s, name, args, after);
    ReadNested(s, qualifiers, cs, Ordinary, after);
    StopsInArguments(s, NamesOf(cs), name, after, innermost);
  }

  lemma UnclosedTail(s: string, name: string, args: seq<Arg>, after: nat)
    requires IsIdentifier(name) && WellFormedArgs(args)
    requires after <= |s| && s[after..] == NameText(name) + ("I" + ArgsText(args))
    ensures after < |s| && IsDigit(s[after]) && At(s, after, NameText(name))
    ensures SkipOptionalArgs(s, after + |NameText(name)|) >= |s|
  {
    TailAt(s, after, NameText(name), "I" + ArgsText(args));
    NameAt(s, after, name);
    OpenToEnd(s, after + |NameText(name)|, args);
  }

  lemma TailAt(s: string, i: nat, a: string, b: string)
    requires i <= |s| && s[i..] == a + b
    ensures At(s, i, a) && s[i + |a|..] == b
  {
    assert At(s, i, a + b);
    AtSplits(s, i, a, b);
  }

  lemma StopsInArguments(s: string, names: seq<string>, name: string, after: nat, innermost: bool)
    requires "_ZN" <= s && ReadNames(s, SkipQualifiers(s, 3), [], false) == ReadNames(s, after, names, false)
    requires IsIdentifier(name) && At(s, after, NameText(name))
    requires SkipOptionalArgs(s, after + |NameText(name)|) >= |s|
    ensures Scope(s, innermost) == None
  {
    ReadName(s, after, after + |NameText(name)|, name, names);
    ScopeRead(s, after, names, false, innermost);
  }

  lemma OpenToEnd(s: string, i: nat, args: seq<Arg>)
    requires WellFormedArgs(args) && i <= |s| && s[i..] == "I" + ArgsText(args)
    ensures SkipOptionalArgs(s, i) >= |s|
  {
    assert At(s, i, "I" + ArgsText(args));
    AtSplits(s, i, "I", ArgsText(args));
    AtChar(s, i, 'I');
    SkipAll(s, i + 1, args, 1);
  }

  lemma {:induction false} NamesOfPrefix(cs: seq<Component>, n: nat)
    requires n <= |cs|
    ensures NamesOf(cs[..n]) == NamesOf(cs)[..n]
  {
    if n > 0 {
      NamesOfPrefix(cs[1..], n - 1);
      assert cs[..n][1..] == cs[1..][..n - 1];
    }
  }

  // ----- any text at all

  /** The name stands in the text right after a decimal numeral of its length. */
  ghost predicate CountedIn(s: string, name: string) {
    exists i: nat, j: nat ::
      i < j <= |s| && AllDigits(s[i..j]) && Value(s[i..j]) == |name| && At(s, j, name)
  }

  lemma {:induction false} DigitsEndIsMaximal(s: string, i: nat)
    requires i <= |s|
    ensures var j := DigitsEnd(s, i); AllDigits(s[i..j]) && (j < |s| ==> !IsDigit(s[j]))
    decreases |s| - i
  {
    if i < |s| && IsDigit(s[i]) {
      DigitsEndIsMaximal(s, i + 1);
      var j := DigitsEnd(s, i);
      forall k | 0 <= k < j - i ensures IsDigit(s[i..j][k]) {
        if k > 0 { assert s[i..j][k] == s[i + 1..j][k - 1]; }
      }
    }
  }

  ghost predicate AllCountedIn(s: string, names: seq<string>) {
    forall k :: 0 <= k < |names| ==> CountedIn(s, names[k])
  }

  lemma ReadNameIsCounted(s: string, i: nat)
    requires i < |s| && IsDigit(s[i]) && DigitsEnd(s, i) + LengthAt(s, i) <= |s|
    ensures CountedIn(s, s[DigitsEnd(s, i)..DigitsEnd(s, i) + LengthAt(s, i)])
  {
    var j, n := DigitsEnd(s, i), LengthAt(s, i);
    DigitsEndIsMaximal(s, i);
    CountedBy(s, i, j, n);
  }

  lemma CountedBy(s: string, i: nat, j: nat, n: nat)
    requires i < j && j + n <= |s| && AllDigits(s[i..j]) && Value(s[i..j]) == n
    ensures CountedIn(s, s[j..j + n])
  {
    assert At(s, j, s[j..j + n]);
  }

  lemma OneMoreCounted(s: string, names: seq<string>, name: string)
    requires AllCountedIn(s, names) && CountedIn(s, name)
    ensures AllCountedIn(s, names + [name])
  {
  }

  /** Whatever the text, every name the reader takes from it is announced there by its length. */
  lemma {:induction false} NamesAreCounted(s: string, i: nat, names: seq<string>, special: bool)
    requires AllCountedIn(s, names)
    ensures var r := ReadNames(s, i, names, special); r.Some? ==> AllCountedIn(s, r.value.names)
    decreases |s| - i
  {
    if i < |s| && s[i] != 'E' {
      if IsDigit(s[i]) {
        var j, n := DigitsEnd(s, i), LengthAt(s, i);
        if j + n <= |s| {
          ReadNameIsCounted(s, i);
          OneMoreCounted(s, names, s[j..j + n]);
          NamesAreCounted(s, SkipOptionalArgs(s, j + n), names + [s[j..j + n]], special);
        }
      } else if s[i] == 'C' || s[i] == 'D' {
        NamesAreCounted(s, if i + 1 < |s| && IsVariant(s[i + 1]) then i + 2 else i + 1, names, true);
      }
    }
  }

  /** For every text there is no scope, or the scope consists of one or more names announced in the text. */
  lemma ScopeIsNames(s: string) returns (names: seq<string>)
    ensures AllCountedIn(s, names)
    ensures Scope(s, false) == if names == [] then None else Some(Joined(names))
    ensures Scope(s, true) == if names == [] then None else Some(names[|names| - 1])
  {
    names := [];
    if "_ZN" <= s {
      var i := SkipQualifiers(s, 3);
      NamesAreCounted(s, i, [], false);
      var r := ReadNames(s, i, [], false);
      if r.Some? { names := ScopeNames(s, r.value.names, r.value.special); }
    }
  }

  lemma ScopeNames(s: string, all: seq<string>, special: bool) returns (names: seq<string>)
    requires AllCountedIn(s, all)
    ensures AllCountedIn(s, names)
    ensures ScopeOf(all, special, false) == if names == [] then None else Some(Joined(names))
    ensures ScopeOf(all, special, true) == if names == [] then None else Some(names[|names| - 1])
  {
    names := if special || all == [] then all else all[..|all| - 1];
  }
}
