/** The enclosing scope of an Itanium-mangled name, read by one pass of an index over the text. */
module ItaniumScope {
  import opened Basics
  import opened Decimal

  // ----- the reading, index by index

  function DigitsEnd(s: string, i: nat): (j: nat)
    ensures i <= j && (i <= |s| ==> j <= |s|)
    ensures j > i <==> i < |s| && IsDigit(s[i])
    decreases |s| - i
  {
    if i < |s| && IsDigit(s[i]) then DigitsEnd(s, i + 1) else i
  }

  /** The length spelled at an index. */
  function LengthAt(s: string, i: nat): nat {
    if DigitsEnd(s, i) <= |s| then Value(s[i..DigitsEnd(s, i)]) else 0
  }

  /** Past the template arguments, `depth` of which are open; a length may lead past the end. */
  function SkipArgs(s: string, i: nat, depth: nat): (end: nat)
    ensures end >= i
    decreases |s| - i
  {
    if i >= |s| || depth == 0 then i
    else if s[i] == 'I' then SkipArgs(s, i + 1, depth + 1)
    else if s[i] == 'E' then SkipArgs(s, i + 1, depth - 1)
    else if IsDigit(s[i]) then SkipArgs(s, DigitsEnd(s, i) + LengthAt(s, i), depth)
    else SkipArgs(s, i + 1, depth)
  }

  function SkipOptionalArgs(s: string, i: nat): (end: nat)
    ensures end >= i
  {
    if i < |s| && s[i] == 'I' then SkipArgs(s, i + 1, 1) else i
  }

  predicate IsVariant(c: char) {
    c in "0123"
  }

  datatype Names = Names(names: seq<string>, special: bool)

  function ReadNames(s: string, i: nat, names: seq<string>, special: bool): Option<Names>
    decreases |s| - i
  {
    if i >= |s| then None
    else if s[i] == 'E' then Some(Names(names, special))
    else if IsDigit(s[i]) then
      var j, n := DigitsEnd(s, i), LengthAt(s, i);
      if j + n > |s| then None else ReadNames(s, SkipOptionalArgs(s, j + n), names + [s[j..j + n]], special)
    else if s[i] == 'C' || s[i] == 'D' then
      ReadNames(s, if i + 1 < |s| && IsVariant(s[i + 1]) then i + 2 else i + 1, names, true)
    else None
  }

  predicate IsQualifier(c: char) {
    c in "KVRO"
  }

  function SkipQualifiers(s: string, i: nat): (end: nat)
    ensures end >= i
    decreases |s| - i
  {
    if i < |s| && IsQualifier(s[i]) then SkipQualifiers(s, i + 1) else i
  }

  function Joined(names: seq<string>): string
    requires names != []
  {
    if |names| == 1 then names[0] else names[0] + "::" + Joined(names[1..])
  }

  /** The scope that a list of names stands for: a constructor or destructor has no name of its own. */
  function ScopeOf(names: seq<string>, special: bool, innermost: bool): Option<string> {
    var scope := if special || names == [] then names else names[..|names| - 1];
    if scope == [] then None
    else if innermost then Some(scope[|scope| - 1])
    else Some(Joined(scope))
  }

  function Scope(mangled: string, innermost: bool): Option<string> {
    if !("_ZN" <= mangled) then None else
    var n := ReadNames(mangled, SkipQualifiers(mangled, 3), [], false);
    if n.None? then None else ScopeOf(n.value.names, n.value.special, innermost)
  }

  // ----- the pass itself

  lemma ValueStep(s: string, start: nat, i: nat)
    requires start <= i < |s|
    ensures Value(s[start..i + 1]) == 10 * Value(s[start..i]) + DigitValue(s[i])
  {
    var t := s[start..i + 1];
    assert t[..|t| - 1] == s[start..i];
  }

  /** A length, and the index after it. */
  method ReadNumber(s: string, start: nat) returns (n: nat, i: nat)
    requires start <= |s|
    ensures i == DigitsEnd(s, start) && n == LengthAt(s, start)
  {
    i, n := start, 0;
    while i < |s| && IsDigit(s[i])
      invariant start <= i <= |s|
      invariant DigitsEnd(s, start) == DigitsEnd(s, i)
      invariant n == Value(s[start..i])
    {
      ValueStep(s, start, i);
      n := n * 10 + DigitValue(s[i]);
      i := i + 1;
    }
  }

  /** The inner loop, after the opening of the template arguments. */
  method SkipTemplateArgs(s: string, start: nat) returns (i: nat)
    requires start <= |s|
    ensures i == SkipArgs(s, start, 1)
  {
    i := start;
    var depth := 1;
    while i < |s| && depth > 0
      invariant depth >= 0 && i >= start
      invariant SkipArgs(s, i, depth) == SkipArgs(s, start, 1)
      decreases |s| - i
    {
      if s[i] == 'I' {
        depth := depth + 1;
      } else if s[i] == 'E' {
        depth := depth - 1;
      } else if IsDigit(s[i]) {
        var ln, j := ReadNumber(s, i);
        i := j + ln;
        continue;
      }
      i := i + 1;
    }
  }

  /** The outer loop: the names up to the closing E, and whether the text makes sense up to there. */
  method ReadNamesAt(s: string, start: nat) returns (ok: bool, names: seq<string>, sawCtorDtor: bool)
    ensures ReadNames(s, start, [], false) == if ok then Some(Names(names, sawCtorDtor)) else None
  {
    var i := start;
    names, sawCtorDtor := [], false;
    while i < |s| && s[i] != 'E'
      invariant ReadNames(s, i, names, sawCtorDtor) == ReadNames(s, start, [], false)
      decreases |s| - i
    {
      if IsDigit(s[i]) {
        var n, j := ReadNumber(s, i);
        if j + n > |s| {
          return false, names, sawCtorDtor;
        }
        names := names + [s[j..j + n]];
        i := j + n;
        if i < |s| && s[i] == 'I' {
          i := SkipTemplateArgs(s, i + 1);
        }
        continue;
      }
      if s[i] in "CD" {
        sawCtorDtor := true;
        i := i + 1;
        if i < |s| && IsVariant(s[i]) {
          i := i + 1;
        }
        continue;
      }
      return false, names, sawCtorDtor;
    }
    ok := i < |s|;
  }

  method GetScopesItanium(mangled: string, innermost: bool) returns (r: Option<string>)
    ensures r == Scope(mangled, innermost)
  {
    if !("_Z" <= mangled) {
      return None;
    }
    var i := 2;
    if i >= |mangled| || mangled[i] != 'N' {
      return None;
    }
    i := i + 1;
    while i < |mangled| && IsQualifier(mangled[i])
      invariant 3 <= i <= |mangled|
      invariant SkipQualifiers(mangled, i) == SkipQualifiers(mangled, 3)
    {
      i := i + 1;
    }
    var ok, names, sawCtorDtor := ReadNamesAt(mangled, i);
    if !ok || |names| < 1 {
      return None;
    }
    if sawCtorDtor {
      return Some(if innermost then names[|names| - 1] else Joined(names));
    }
    if |names| < 2 {
      return None;
    }
    return Some(if innermost then names[|names| - 2] else Joined(names[..|names| - 1]));
  }
}
