/** The text itself, letter by letter: which suffix, bracket, separator and escape stands where. */
module SnbtSpelling {
  import opened Basics
  import opened Decimal
  import opened Snbt

  // ----- numbers

  /** Bytes, shorts and longs carry their letter, ints none. */
  lemma IntegersSpelled(g: GeneralFormat, v: int)
    ensures Print(g, Num(Byte, v)) == IntText(v) + "b"
    ensures Print(g, Num(Short, v)) == IntText(v) + "s"
    ensures Print(g, Num(Int, v)) == IntText(v)
    ensures Print(g, Num(Long, v)) == IntText(v) + "L"
  {
    assert IntText(v) + "" == IntText(v);
  }

  /** Floats and doubles print as `{:g}` does, with a point and a zero if that shows neither point nor exponent. */
  lemma RealsSpelled(g: GeneralFormat, v: int)
    ensures var (t, text) := (g.single(v), Print(g, Num(Float, v)));
            if '.' in t || 'e' in t then text == t + "f" else text == t + ".0f"
    ensures var (t, text) := (g.double(v), Print(g, Num(Double, v)));
            if '.' in t || 'e' in t then text == t + "d" else text == t + ".0d"
  {
    Regroup(g.single(v), ".0", "f");
    Regroup(g.double(v), ".0", "d");
  }

  /** A minus sign for what is below zero, and then a decimal numeral without a leading zero. */
  lemma IntegerDigits(v: int)
    ensures v < 0 ==> IntText(v) != "" && IntText(v)[0] == '-'
    ensures var digits := if v < 0 then IntText(v)[1..] else IntText(v);
            && digits != "" && AllDigits(digits) && Value(digits) == (if v < 0 then -v else v)
            && (digits[0] == '0' <==> v == 0)
  {
    var n := if v < 0 then -v else v;
    ValueOfText(n);
    NoLeadingZero(n);
    if v < 0 { assert IntText(v)[1..] == NatText(n); }
  }

  // ----- the joining of parts

  lemma {:induction false} JoinConcat(a: seq<string>, b: seq<string>)
    requires a != [] && b != []
    ensures Join(a + b) == Join(a) + ("," + Join(b))
  {
    if |a| == 1 {
      assert (a + b)[1..] == b;
    } else {
      assert (a + b)[1..] == a[1..] + b;
      JoinConcat(a[1..], b);
      JoinedOn(a[0], Join(a[1..]), Join(b));
    }
  }

  lemma JoinedOn(a: string, b: string, c: string)
    ensures a + ("," + (b + ("," + c))) == (a + ("," + b)) + ("," + c)
  {
    Regroup(",", b, "," + c);
    Regroup(a, "," + b, "," + c);
  }

  /** Two bracketed texts run together. */
  lemma RunTogether(open: string, a: string, b: string, close: char)
    ensures var left, right := open + a + [close], open + b + [close];
            && right[|open|..] == b + [close]
            && open + (a + ("," + b)) + [close] == left[..|left| - 1] + "," + right[|open|..]
  {
    var left, right := open + a + [close], open + b + [close];
    assert left[..|left| - 1] == open + a && right[|open|..] == b + [close];
    assert open + (a + ("," + b)) + [close] == open + a + "," + (b + [close]);
  }

  // ----- arrays

  lemma {:induction false} NumTextsConcat(g: GeneralFormat, k: NumKind, a: seq<int>, b: seq<int>)
    ensures NumTexts(g, k, a + b) == NumTexts(g, k, a) + NumTexts(g, k, b)
  {
    if a == [] {
      assert a + b == b;
    } else {
      assert (a + b)[1..] == a[1..] + b;
      NumTextsConcat(g, k, a[1..], b);
    }
  }

  /** A byte array: its opening, each byte with its letter, commas between, and one bracket. */
  lemma ByteArraySpelled(g: GeneralFormat, v: int, a: seq<int>, b: seq<int>)
    requires a != [] && b != []
    ensures Print(g, ByteArray([])) == "[B;]"
    ensures Print(g, ByteArray([v])) == "[B;" + IntText(v) + "b]"
    ensures var (left, right) := (Print(g, ByteArray(a)), Print(g, ByteArray(b)));
            && |left| > 3 && |right| > 3 && left[..3] == "[B;"
            && Print(g, ByteArray(a + b)) == left[..|left| - 1] + "," + right[3..]
  {
    assert NumTexts(g, Byte, [v]) == [IntText(v) + "b"];
    Regroup("[B;" + IntText(v), "b", "]");
    Regroup("[B;", IntText(v), "b");
    NumTextsConcat(g, Byte, a, b);
    JoinConcat(NumTexts(g, Byte, a), NumTexts(g, Byte, b));
    RunTogether("[B;", Join(NumTexts(g, Byte, a)), Join(NumTexts(g, Byte, b)), ']');
    SomeText(g, Byte, a);
    SomeText(g, Byte, b);
  }

  lemma IntArraySpelled(g: GeneralFormat, v: int, a: seq<int>, b: seq<int>)
    requires a != [] && b != []
    ensures Print(g, IntArray([])) == "[I;]"
    ensures Print(g, IntArray([v])) == "[I;" + IntText(v) + "]"
    ensures var (left, right) := (Print(g, IntArray(a)), Print(g, IntArray(b)));
            && |left| > 3 && |right| > 3 && left[..3] == "[I;"
            && Print(g, IntArray(a + b)) == left[..|left| - 1] + "," + right[3..]
  {
    assert IntText(v) + "" == IntText(v);
    assert NumTexts(g, Int, [v]) == [IntText(v)];
    NumTextsConcat(g, Int, a, b);
    JoinConcat(NumTexts(g, Int, a), NumTexts(g, Int, b));
    RunTogether("[I;", Join(NumTexts(g, Int, a)), Join(NumTexts(g, Int, b)), ']');
    SomeText(g, Int, a);
    SomeText(g, Int, b);
  }

  lemma SomeText(g: GeneralFormat, k: NumKind, ns: seq<int>)
    requires ns != [] && (k == Byte || k == Int)
    ensures Join(NumTexts(g, k, ns)) != ""
  {
    ValueOfText(if ns[0] < 0 then -ns[0] else ns[0]);
  }

  // ----- lists and compounds

  lemma {:induction false} TextsConcat(g: GeneralFormat, a: seq<Tag>, b: seq<Tag>)
    ensures Texts(g, a + b) == Texts(g, a) + Texts(g, b)
  {
    if a == [] {
      assert a + b == b;
    } else {
      assert (a + b)[1..] == a[1..] + b;
      TextsConcat(g, a[1..], b);
    }
  }

  lemma {:induction false} EntryTextsConcat(g: GeneralFormat, a: seq<Entry>, b: seq<Entry>)
    ensures EntryTexts(g, a + b) == EntryTexts(g, a) + EntryTexts(g, b)
  {
    if a == [] {
      assert a + b == b;
    } else {
      assert (a + b)[1..] == a[1..] + b;
      EntryTextsConcat(g, a[1..], b);
    }
  }

  /** A list: square brackets, the elements' texts, and commas between. */
  lemma ListSpelled(g: GeneralFormat, t: Tag, a: seq<Tag>, b: seq<Tag>)
    requires a != [] && b != []
    ensures Print(g, End) == "" && Print(g, List([])) == "[]"
    ensures Print(g, List([t])) == "[" + Print(g, t) + "]"
    ensures var (left, right) := (Print(g, List(a)), Print(g, List(b)));
            && |left| > 1 && |right| > 1
            && Print(g, List(a + b)) == left[..|left| - 1] + "," + right[1..]
  {
    assert Texts(g, [t]) == [Print(g, t)];
    TextsConcat(g, a, b);
    JoinConcat(Texts(g, a), Texts(g, b));
    RunTogether("[", Join(Texts(g, a)), Join(Texts(g, b)), ']');
  }

  /** A compound: braces, each key escaped and with a colon before its value, and commas between. */
  lemma CompoundSpelled(g: GeneralFormat, key: string, t: Tag, a: seq<Entry>, b: seq<Entry>)
    requires a != [] && b != []
    ensures Print(g, Compound([])) == "{}"
    ensures Print(g, Compound([Entry(key, t)])) == "{" + Escape(key) + ":" + Print(g, t) + "}"
    ensures var (left, right) := (Print(g, Compound(a)), Print(g, Compound(b)));
            && |left| > 1 && |right| > 1
            && Print(g, Compound(a + b)) == left[..|left| - 1] + "," + right[1..]
  {
    assert EntryTexts(g, [Entry(key, t)]) == [Escape(key) + (":" + Print(g, t))];
    Regroup("{", Escape(key), ":" + Print(g, t));
    Regroup("{" + Escape(key), ":", Print(g, t));
    EntryTextsConcat(g, a, b);
    JoinConcat(EntryTexts(g, a), EntryTexts(g, b));
    RunTogether("{", Join(EntryTexts(g, a)), Join(EntryTexts(g, b)), '}');
  }

  // ----- strings

  /** Without quotes only if it is a word; else the quote that is not the first one occurring, on both sides. */
  lemma StringSpelled(g: GeneralFormat, s: string)
    ensures IsWord(s) ==> Print(g, String(s)) == s
    ensures !IsWord(s) ==>
              var (text, q) := (Print(g, String(s)), QuoteFor(s));
              text == [q] + EscapeBody(s, q) + [q]
    ensures IsWord(s) <==> s != "" && forall i :: 0 <= i < |s| ==> IsSimple(s[i])
  {
  }

  lemma {:induction false} QuoteSpelled(before: string, after: string)
    requires forall i :: 0 <= i < |before| ==> before[i] != '"' && before[i] != '\''
    ensures QuoteFor(before) == '"'
    ensures QuoteFor(before + ['"'] + after) == '\''
    ensures QuoteFor(before + ['\''] + after) == '"'
  {
    if before != "" {
      QuoteSpelled(before[1..], after);
      assert (before + ['"'] + after)[1..] == before[1..] + ['"'] + after;
      assert (before + ['\''] + after)[1..] == before[1..] + ['\''] + after;
    }
  }

  /** Backslashes and braces are doubled, the delimiter gets a backslash, and everything else stands as it is. */
  lemma EscapeSpelled(c: char, q: char)
    requires q == '"' || q == '\''
    ensures EscapeBody("\\", q) == "\\\\" && EscapeBody("{", q) == "{{" && EscapeBody("}", q) == "}}"
    ensures EscapeBody([q], q) == ['\\', q]
    ensures c != '\\' && c != '{' && c != '}' && c != q ==> EscapeBody([c], q) == [c]
  {
    assert forall d: char :: EscapeBody([d], q) == EscapeChar(d, q) + "";
  }

  lemma {:induction false} EscapeConcat(a: string, b: string, q: char)
    ensures EscapeBody(a + b, q) == EscapeBody(a, q) + EscapeBody(b, q)
  {
    if a == "" {
      assert a + b == b;
    } else {
      assert (a + b)[1..] == a[1..] + b;
      EscapeConcat(a[1..], b, q);
      Regroup(EscapeChar(a[0], q), EscapeBody(a[1..], q), EscapeBody(b, q));
    }
  }
}
