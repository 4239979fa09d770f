/** Unique readability: parsing a printed tag gives its skeleton back, whatever the strings inside contain. */
module SnbtReading {
  import opened Basics
  import opened Decimal
  import opened Snbt

  /** The first part, and what stands after it. */
  function AfterFirst(parts: seq<string>, close: string): string
    requires parts != []
  {
    if |parts| == 1 then close else "," + (Join(parts[1..]) + close)
  }

  lemma JoinSplits(parts: seq<string>, close: string)
    requires parts != []
    ensures Join(parts) + close == parts[0] + AfterFirst(parts, close)
  {
    if |parts| > 1 {
      var p, more := parts[0], Join(parts[1..]);
      Regroup(p, "," + more, close);
      Regroup(",", more, close);
    }
  }

  // ----- escaping

  lemma OneChar(c: char, more: string)
    ensures ([c] + more)[0] == c && ([c] + more)[1..] == more
  {
  }

  lemma TwoChars(a: char, b: char, more: string)
    ensures ([a, b] + more)[0] == a && ([a, b] + more)[1] == b && ([a, b] + more)[2..] == more
  {
  }

  lemma BodyStep(c: char, q: char, more: string)
    requires IsQuote(q) && ParseBody(more, q).Good?
    ensures ParseBody(EscapeChar(c, q) + more, q) == Good([c] + ParseBody(more, q).value, ParseBody(more, q).rest)
  {
    if c == '\\' || c == '{' || c == '}' {
      assert EscapeChar(c, q) == [c, c];
      TwoChars(c, c, more);
    } else if c == q {
      assert EscapeChar(c, q) == ['\\', c];
      TwoChars('\\', c, more);
    } else {
      assert EscapeChar(c, q) == [c];
      OneChar(c, more);
    }
  }

  lemma {:induction false} BodyParses(s: string, q: char, rest: string)
    requires IsQuote(q)
    ensures ParseBody(EscapeBody(s, q) + ([q] + rest), q) == Good(s, rest)
  {
    var tail := [q] + rest;
    if s == "" {
      assert EscapeBody(s, q) + tail == tail;
    } else {
      var x, body := EscapeChar(s[0], q), EscapeBody(s[1..], q);
      BodyParses(s[1..], q, rest);
      BodyStep(s[0], q, body + tail);
      Regroup(x, body, tail);
      assert [s[0]] + s[1..] == s;
    }
  }

  /** What may stand after a scalar: nothing that could continue a bare word. */
  predicate Ends(tail: string) {
    tail == "" || !IsSimple(tail[0])
  }

  lemma {:induction false} WordLengthIs(w: string, tail: string)
    requires (forall i :: 0 <= i < |w| ==> IsSimple(w[i])) && Ends(tail)
    ensures WordLength(w + tail) == |w|
  {
    if w == "" {
      assert w + tail == tail;
    } else {
      assert (w + tail)[1..] == w[1..] + tail;
      WordLengthIs(w[1..], tail);
    }
  }

  lemma WordParses(w: string, tail: string)
    requires IsWord(w) && Ends(tail)
    ensures ParseScalar(w + tail) == Good(Word(w), tail)
  {
    WordLengthIs(w, tail);
    assert (w + tail)[0] == w[0];
    assert (w + tail)[..|w|] == w && (w + tail)[|w|..] == tail;
  }

  /** A string alone: a bare word or a quoted body, from which the string comes back. */
  function StringSkeleton(s: string): Skeleton {
    if IsWord(s) then Word(s) else Quoted(s)
  }

  lemma EscapeParses(s: string, tail: string)
    requires Ends(tail)
    ensures ParseScalar(Escape(s) + tail) == Good(StringSkeleton(s), tail)
  {
    if IsWord(s) {
      WordParses(s, tail);
    } else {
      QuotedParses(s, QuoteFor(s), tail);
    }
  }

  lemma QuotedParses(s: string, q: char, tail: string)
    requires IsQuote(q)
    ensures ParseScalar([q] + EscapeBody(s, q) + [q] + tail) == Good(Quoted(s), tail)
  {
    var body := EscapeBody(s, q);
    Regroup([q] + body, [q], tail);
    Regroup([q], body, [q] + tail);
    BodyParses(s, q, tail);
    OneChar(q, body + ([q] + tail));
  }

  /** Reads a string that stands alone. */
  function Unescape(text: string): Parsed<string> {
    var r := ParseScalar(text);
    if r.Bad? then Bad else Good(if r.value.Word? then r.value.word else r.value.text, r.rest)
  }

  /** One function undoes every escaping, so no two strings are escaped alike. */
  lemma EscapeInjective(s: string, t: string)
    ensures Unescape(Escape(s)) == Good(s, "")
    ensures Escape(s) == Escape(t) <==> s == t
  {
    EscapeParses(s, "");
    EscapeParses(t, "");
    assert Escape(s) + "" == Escape(s) && Escape(t) + "" == Escape(t);
  }

  // ----- numbers are words

  lemma WordIsSimple(w: string)
    ensures IsWord(w) ==> forall i :: 0 <= i < |w| ==> IsSimple(w[i])
  {
  }

  lemma NumTextIsWord(g: GeneralFormat, k: NumKind, v: int)
    requires PrintsWords(g)
    ensures IsWord(NumText(g, k, v))
  {
    ValueOfText(if v < 0 then -v else v);
    assert IsWord(g.single(v)) && IsWord(g.double(v));
  }

  // ----- whole tags

  /**
   * A list whose one element is an End prints as the empty list does. Lists refuse End elements when they
   * are built, so only a list emptied by assignment through a reference is of this form.
   */
  ghost predicate Readable(t: Tag)
    decreases t
  {
    match t
    case List(es) => es != [End] && forall i :: 0 <= i < |es| ==> Readable(es[i])
    case Compound(es) => forall i :: 0 <= i < |es| ==> Readable(es[i].value)
    case _ => true
  }

  /** What may stand after a value inside a list or a compound, or at the end. */
  predicate Follows(tail: string) {
    tail == "" || Closes(tail[0])
  }

  lemma ScalarValue(s: string)
    requires s != "" && (IsQuote(s[0]) || IsSimple(s[0]))
    ensures ParseValue(s) == ParseScalar(s)
  {
  }

  lemma EscapeStarts(s: string, tail: string)
    ensures var x := Escape(s) + tail; x != "" && (IsQuote(x[0]) || IsSimple(x[0]))
  {
  }

  lemma {:induction false} ValueReads(g: GeneralFormat, t: Tag, rest: string)
    requires PrintsWords(g) && Readable(t) && Follows(rest)
    ensures ParseValue(Print(g, t) + rest) == Good(SkeletonOf(g, t), rest)
    decreases t, 0
  {
    match t
    case End =>
      assert Print(g, t) + rest == rest;
    case Num(k, v) =>
      NumTextIsWord(g, k, v);
      WordParses(NumText(g, k, v), rest);
      ScalarValue(NumText(g, k, v) + rest);
    case String(s) =>
      EscapeParses(s, rest);
      EscapeStarts(s, rest);
      ScalarValue(Escape(s) + rest);
    case ByteArray(bs) =>
      NumTextsAreWords(g, Byte, bs);
      ArrayValueParses("[B;", NumTexts(g, Byte, bs), rest);
    case IntArray(ns) =>
      NumTextsAreWords(g, Int, ns);
      ArrayValueParses("[I;", NumTexts(g, Int, ns), rest);
    case List(es) =>
      ListReads(g, es, rest);
    case Compound(es) =>
      CompoundReads(g, es, rest);
  }

  lemma {:induction false} ListReads(g: GeneralFormat, es: seq<Tag>, rest: string)
    requires PrintsWords(g) && Readable(List(es))
    ensures ParseValue(Print(g, List(es)) + rest) == Good(Items(SkeletonsOf(g, es)), rest)
    decreases es, 2
  {
    if es == [] {
      assert Print(g, List(es)) == ['[', ']'];
      TwoChars('[', ']', rest);
    } else {
      ElemsRead(g, es, rest);
      ListStarts(g, es, rest);
    }
  }

  lemma {:induction false} CompoundReads(g: GeneralFormat, es: seq<Entry>, rest: string)
    requires PrintsWords(g) && Readable(Compound(es))
    ensures ParseValue(Print(g, Compound(es)) + rest) == Good(Fields(FieldsOf(g, es)), rest)
    decreases es, 2
  {
    if es == [] {
      assert Print(g, Compound(es)) == ['{', '}'];
      TwoChars('{', '}', rest);
    } else {
      EntriesRead(g, es, rest);
      CompoundStarts(g, es, rest);
      BraceOpens(Join(EntryTexts(g, es)) + ("}" + rest));
    }
  }

  // arrays

  predicate AreWords(ws: seq<string>) {
    ws != [] ==> IsWord(ws[0]) && AreWords(ws[1..])
  }

  lemma WordsEnd(w: string, rest: string)
    requires IsWord(w)
    ensures ParseWords(w + ("]" + rest)) == Good([w], rest)
  {
    WordParses(w, "]" + rest);
    OneChar(']', rest);
  }

  lemma WordsMore(w: string, more: string)
    requires IsWord(w) && ParseWords(more).Good?
    ensures ParseWords(w + ("," + more)) == Good([w] + ParseWords(more).value, ParseWords(more).rest)
  {
    WordParses(w, "," + more);
    OneChar(',', more);
  }

  lemma {:induction false} NumsParse(ws: seq<string>, rest: string)
    requires ws != [] && AreWords(ws)
    ensures ParseWords(Join(ws) + ("]" + rest)) == Good(ws, rest)
  {
    JoinSplits(ws, "]" + rest);
    if |ws| == 1 {
      WordsEnd(ws[0], rest);
      assert ws == [ws[0]];
    } else {
      NumsParse(ws[1..], rest);
      WordsMore(ws[0], Join(ws[1..]) + ("]" + rest));
      Uncons(ws);
    }
  }

  lemma Uncons(ws: seq<string>)
    requires ws != []
    ensures [ws[0]] + ws[1..] == ws
  {
  }

  lemma {:induction false} NumTextsAreWords(g: GeneralFormat, k: NumKind, ns: seq<int>)
    requires PrintsWords(g)
    ensures AreWords(NumTexts(g, k, ns))
  {
    if ns != [] {
      NumTextIsWord(g, k, ns[0]);
      NumTextsAreWords(g, k, ns[1..]);
      assert NumTexts(g, k, ns)[1..] == NumTexts(g, k, ns[1..]);
    }
  }

  lemma WordStarts(w: string, tail: string)
    requires IsWord(w)
    ensures w + tail != "" && (w + tail)[0] != ']'
  {
    assert IsSimple((w + tail)[0]);
  }

  lemma ArrayParses(ws: seq<string>, rest: string)
    requires AreWords(ws)
    ensures ParseArray(Join(ws) + ("]" + rest)) == Good(ws, rest)
  {
    if ws == [] {
      assert Join(ws) + ("]" + rest) == "]" + rest;
      OneChar(']', rest);
    } else {
      NumsParse(ws, rest);
      JoinSplits(ws, "]" + rest);
      WordStarts(ws[0], AfterFirst(ws, "]" + rest));
    }
  }

  lemma ArrayOpens(open: string, body: string)
    requires (open == "[B;" || open == "[I;") && ParseArray(body).Good?
    ensures var r := ParseArray(body);
            ParseValue(open + body) == Good(if open == "[B;" then Bytes(r.value) else Ints(r.value), r.rest)
  {
    assert (open + body)[..3] == open && (open + body)[3..] == body;
  }

  lemma ArrayValueParses(open: string, ws: seq<string>, rest: string)
    requires AreWords(ws)
    requires open == "[B;" || open == "[I;"
    ensures ParseValue(open + Join(ws) + "]" + rest) == Good(if open == "[B;" then Bytes(ws) else Ints(ws), rest)
  {
    var nums := Join(ws);
    Regroup(open + nums, "]", rest);
    Regroup(open, nums, "]" + rest);
    ArrayParses(ws, rest);
    ArrayOpens(open, nums + ("]" + rest));
  }

  // lists

  lemma ItemsEnd(v: string, rest: string, k: Skeleton)
    requires ParseValue(v + ("]" + rest)) == Good(k, "]" + rest)
    ensures ParseItems(v + ("]" + rest)) == Good([k], rest)
  {
    OneChar(']', rest);
  }

  lemma ItemsMore(v: string, more: string, k: Skeleton)
    requires ParseValue(v + ("," + more)) == Good(k, "," + more) && ParseItems(more).Good?
    ensures ParseItems(v + ("," + more)) == Good([k] + ParseItems(more).value, ParseItems(more).rest)
  {
    OneChar(',', more);
  }

  lemma {:induction false} ElemsRead(g: GeneralFormat, es: seq<Tag>, rest: string)
    requires PrintsWords(g) && es != [] && forall i :: 0 <= i < |es| ==> Readable(es[i])
    ensures ParseItems(Join(Texts(g, es)) + ("]" + rest)) == Good(SkeletonsOf(g, es), rest)
    decreases es, 1
  {
    var v, k := Print(g, es[0]), SkeletonOf(g, es[0]);
    JoinSplits(Texts(g, es), "]" + rest);
    if |es| == 1 {
      ValueReads(g, es[0], "]" + rest);
      ItemsEnd(v, rest, k);
      assert SkeletonsOf(g, es) == [k];
    } else {
      assert Texts(g, es)[1..] == Texts(g, es[1..]);
      var more := Join(Texts(g, es[1..])) + ("]" + rest);
      ValueReads(g, es[0], "," + more);
      ElemsRead(g, es[1..], rest);
      ItemsMore(v, more, k);
    }
  }

  /** No value starts like the rest of an array's opening: a letter and a semicolon. */
  lemma NoSemicolon(g: GeneralFormat, t: Tag, tail: string)
    requires PrintsWords(g) && Follows(tail)
    ensures var x := Print(g, t) + tail; |x| > 1 && IsSimple(x[0]) ==> x[1] != ';'
  {
    match t
    case Num(k, v) =>
      NumTextIsWord(g, k, v);
      WordIsSimple(NumText(g, k, v));
    case String(s) => WordIsSimple(s);
    case _ =>
  }

  lemma PrintStarts(g: GeneralFormat, t: Tag)
    requires PrintsWords(g)
    ensures if t.End? then Print(g, t) == "" else Print(g, t) != "" && !Closes(Print(g, t)[0])
  {
    match t
    case Num(k, v) =>
      NumTextIsWord(g, k, v);
      WordIsSimple(NumText(g, k, v));
    case String(s) => EscapeStarts(s, "");
    case _ =>
  }

  /** What decides that a bracket opens a nonempty list. */
  lemma BracketStarts(v: string, tail: string)
    requires v + tail != "" && (v + tail)[0] != ']'
    requires |v + tail| > 1 && IsSimple((v + tail)[0]) ==> (v + tail)[1] != ';'
    ensures var s := "[" + (v + tail); s[1..] == v + tail && s[1] != ']' && !("[B;" <= s) && !("[I;" <= s)
  {
    var body := v + tail;
    assert ("[" + body)[1] == body[0];
    assert |body| > 1 ==> ("[" + body)[2] == body[1];
  }

  lemma ListStarts(g: GeneralFormat, es: seq<Tag>, rest: string)
    requires PrintsWords(g) && es != [] && es != [End]
    ensures var body := Join(Texts(g, es)) + ("]" + rest);
            var s := "[" + body;
            && Print(g, List(es)) + rest == s && s[1..] == body && body != ""
            && s[1] != ']' && !("[B;" <= s) && !("[I;" <= s)
  {
    var close, all := "]" + rest, Join(Texts(g, es));
    Regroup("[" + all, "]", rest);
    Regroup("[", all, close);
    JoinSplits(Texts(g, es), close);
    var v, tail := Print(g, es[0]), AfterFirst(Texts(g, es), close);
    NoSemicolon(g, es[0], tail);
    PrintStarts(g, es[0]);
    assert |es| == 1 ==> es == [es[0]];
    if es[0].End? {
      assert v + tail == tail;
    }
    BracketStarts(v, tail);
  }

  // compounds

  /** The key and the colon. */
  lemma KeyParses(key: string, tail: string)
    ensures ParseScalar(Escape(key) + (":" + tail)) == Good(StringSkeleton(key), ":" + tail)
    ensures (":" + tail)[0] == ':' && (":" + tail)[1..] == tail
  {
    EscapeParses(key, ":" + tail);
  }

  lemma FieldsEnd(key: string, v: string, rest: string, k: Skeleton)
    requires ParseValue(v + ("}" + rest)) == Good(k, "}" + rest)
    ensures ParseFields(Escape(key) + (":" + (v + ("}" + rest)))) == Good([Field(key, k)], rest)
  {
    KeyParses(key, v + ("}" + rest));
    OneChar('}', rest);
  }

  lemma FieldsMore(key: string, v: string, more: string, k: Skeleton)
    requires ParseValue(v + ("," + more)) == Good(k, "," + more) && ParseFields(more).Good?
    ensures ParseFields(Escape(key) + (":" + (v + ("," + more))))
            == Good([Field(key, k)] + ParseFields(more).value, ParseFields(more).rest)
  {
    KeyParses(key, v + ("," + more));
    FieldsStep(Escape(key) + (":" + (v + ("," + more))), StringSkeleton(key), v + ("," + more), k, more);
  }

  lemma FieldsStep(s: string, key: Skeleton, tail: string, k: Skeleton, more: string)
    requires ParseScalar(s) == Good(key, ":" + tail) && ParseValue(tail) == Good(k, "," + more)
    requires ParseFields(more).Good? && (key.Word? || key.Quoted?)
    ensures var field := Field(if key.Word? then key.word else key.text, k);
            ParseFields(s) == Good([field] + ParseFields(more).value, ParseFields(more).rest)
  {
    OneChar(':', tail);
    OneChar(',', more);
  }

  lemma {:induction false} EntriesRead(g: GeneralFormat, es: seq<Entry>, rest: string)
    requires PrintsWords(g) && es != [] && forall i :: 0 <= i < |es| ==> Readable(es[i].value)
    ensures ParseFields(Join(EntryTexts(g, es)) + ("}" + rest)) == Good(FieldsOf(g, es), rest)
    decreases es, 1
  {
    var key, v, k := es[0].key, Print(g, es[0].value), SkeletonOf(g, es[0].value);
    var tail := AfterFirst(EntryTexts(g, es), "}" + rest);
    JoinSplits(EntryTexts(g, es), "}" + rest);
    Regroup(Escape(key), ":" + v, tail);
    Regroup(":", v, tail);
    if |es| == 1 {
      ValueReads(g, es[0].value, "}" + rest);
      FieldsEnd(key, v, rest, k);
      assert FieldsOf(g, es) == [Field(key, k)];
    } else {
      assert EntryTexts(g, es)[1..] == EntryTexts(g, es[1..]);
      var more := Join(EntryTexts(g, es[1..])) + ("}" + rest);
      ValueReads(g, es[0].value, "," + more);
      EntriesRead(g, es[1..], rest);
      FieldsMore(key, v, more, k);
    }
  }

  lemma BraceOpens(body: string)
    requires body != "" && body[0] != '}' && ParseFields(body).Good?
    ensures ParseValue("{" + body) == Good(Fields(ParseFields(body).value), ParseFields(body).rest)
  {
    OneChar('{', body);
  }

  lemma CompoundStarts(g: GeneralFormat, es: seq<Entry>, rest: string)
    requires es != []
    ensures var body := Join(EntryTexts(g, es)) + ("}" + rest);
            Print(g, Compound(es)) + rest == "{" + body && body != "" && body[0] != '}'
  {
    var close, all := "}" + rest, Join(EntryTexts(g, es));
    Regroup("{" + all, "}", rest);
    Regroup("{", all, close);
    JoinSplits(EntryTexts(g, es), close);
    EscapeStarts(es[0].key, "");
    assert Escape(es[0].key) + "" == Escape(es[0].key);
  }

  // ----- the theorem

  function TextOf(k: Skeleton): string
    decreases k
  {
    match k
    case Blank => ""
    case Word(w) => w
    case Quoted(s) => Escape(s)
    case Bytes(ws) => "[B;" + Join(ws) + "]"
    case Ints(ws) => "[I;" + Join(ws) + "]"
    case Items(ks) => "[" + Join(TextsOf(ks)) + "]"
    case Fields(fs) => "{" + Join(FieldTextsOf(fs)) + "}"
  }

  function TextsOf(ks: seq<Skeleton>): seq<string>
    decreases ks
  {
    if ks == [] then [] else [TextOf(ks[0])] + TextsOf(ks[1..])
  }

  function FieldTextsOf(fs: seq<Field>): seq<string>
    decreases fs
  {
    if fs == [] then [] else [Escape(fs[0].key) + (":" + TextOf(fs[0].value))] + FieldTextsOf(fs[1..])
  }

  lemma {:induction false} PrintFromSkeleton(g: GeneralFormat, t: Tag)
    ensures TextOf(SkeletonOf(g, t)) == Print(g, t)
    decreases t, 0
  {
    match t
    case List(es) => ItemsText(g, es);
    case Compound(es) => FieldsText(g, es);
    case _ =>
  }

  lemma {:induction false} ItemsText(g: GeneralFormat, es: seq<Tag>)
    ensures TextsOf(SkeletonsOf(g, es)) == Texts(g, es)
    decreases es, 1
  {
    if es != [] {
      PrintFromSkeleton(g, es[0]);
      ItemsText(g, es[1..]);
      assert SkeletonsOf(g, es)[1..] == SkeletonsOf(g, es[1..]);
    }
  }

  lemma {:induction false} FieldsText(g: GeneralFormat, es: seq<Entry>)
    ensures FieldTextsOf(FieldsOf(g, es)) == EntryTexts(g, es)
    decreases es, 1
  {
    if es != [] {
      PrintFromSkeleton(g, es[0].value);
      FieldsText(g, es[1..]);
      assert FieldsOf(g, es)[1..] == FieldsOf(g, es[1..]);
    }
  }

  // ----- the one shape that the text does not show

  /** The tag with every list of a single End, at any depth, made empty. */
  function Norm(t: Tag): Tag
    decreases t
  {
    match t
    case List(es) => List(if es == [End] then [] else NormAll(es))
    case Compound(es) => Compound(NormEntries(es))
    case _ => t
  }

  function NormAll(es: seq<Tag>): (r: seq<Tag>)
    ensures |r| == |es|
    decreases es
  {
    if es == [] then [] else [Norm(es[0])] + NormAll(es[1..])
  }

  function NormEntries(es: seq<Entry>): (r: seq<Entry>)
    ensures |r| == |es|
    decreases es
  {
    if es == [] then [] else [Entry(es[0].key, Norm(es[0].value))] + NormEntries(es[1..])
  }

  lemma {:induction false} NormAllAt(es: seq<Tag>, i: nat)
    requires i < |es|
    ensures NormAll(es)[i] == Norm(es[i])
  {
    if i > 0 { NormAllAt(es[1..], i - 1); }
  }

  lemma {:induction false} NormEntriesAt(es: seq<Entry>, i: nat)
    requires i < |es|
    ensures NormEntries(es)[i] == Entry(es[i].key, Norm(es[i].value))
  {
    if i > 0 { NormEntriesAt(es[1..], i - 1); }
  }

  lemma {:induction false} NormIsReadable(t: Tag)
    ensures Readable(Norm(t))
    decreases t
  {
    match t
    case List(es) =>
      if es != [End] {
        forall i | 0 <= i < |es| ensures Readable(NormAll(es)[i]) {
          NormAllAt(es, i);
          NormIsReadable(es[i]);
        }
        assert |es| == 1 ==> es == [es[0]] && NormAll(es)[0] == Norm(es[0]);
      }
    case Compound(es) =>
      forall i | 0 <= i < |es| ensures Readable(NormEntries(es)[i].value) {
        NormEntriesAt(es, i);
        NormIsReadable(es[i].value);
      }
    case _ =>
  }

  lemma {:induction false} PrintNorm(g: GeneralFormat, t: Tag)
    ensures Print(g, Norm(t)) == Print(g, t)
    decreases t, 0
  {
    match t
    case List(es) =>
      if es == [End] {
        assert Texts(g, es) == [""];
      } else {
        TextsNorm(g, es);
      }
    case Compound(es) => EntryTextsNorm(g, es);
    case _ =>
  }

  lemma {:induction false} TextsNorm(g: GeneralFormat, es: seq<Tag>)
    ensures Texts(g, NormAll(es)) == Texts(g, es)
    decreases es, 1
  {
    if es != [] {
      PrintNorm(g, es[0]);
      TextsNorm(g, es[1..]);
      assert NormAll(es)[1..] == NormAll(es[1..]);
    }
  }

  lemma {:induction false} EntryTextsNorm(g: GeneralFormat, es: seq<Entry>)
    ensures EntryTexts(g, NormEntries(es)) == EntryTexts(g, es)
    decreases es, 1
  {
    if es != [] {
      PrintNorm(g, es[0].value);
      EntryTextsNorm(g, es[1..]);
      assert NormEntries(es)[1..] == NormEntries(es[1..]);
    }
  }

  // ----- the theorem, for every tag

  /** The text of any tag, followed by what may follow a value, is read as its skeleton but for single Ends in lists. */
  lemma ValueParses(g: GeneralFormat, t: Tag, rest: string)
    requires PrintsWords(g) && Follows(rest)
    ensures ParseValue(Print(g, t) + rest) == Good(SkeletonOf(g, Norm(t)), rest)
  {
    NormIsReadable(t);
    PrintNorm(g, t);
    ValueReads(g, Norm(t), rest);
  }

  /** The text shows exactly that skeleton: two tags print alike if and only if theirs agree. */
  lemma TextShowsSkeleton(g: GeneralFormat, a: Tag, b: Tag)
    requires PrintsWords(g)
    ensures ParseValue(Print(g, a)) == Good(SkeletonOf(g, Norm(a)), "")
    ensures Print(g, a) == Print(g, b) <==> SkeletonOf(g, Norm(a)) == SkeletonOf(g, Norm(b))
  {
    ValueParses(g, a, "");
    ValueParses(g, b, "");
    assert Print(g, a) + "" == Print(g, a) && Print(g, b) + "" == Print(g, b);
    PrintFromSkeleton(g, Norm(a));
    PrintFromSkeleton(g, Norm(b));
    PrintNorm(g, a);
    PrintNorm(g, b);
  }

  /** A tag's own skeleton comes back exactly when no list in it, at any depth, holds a single End. */
  lemma ReadsBackExactly(g: GeneralFormat, t: Tag)
    requires PrintsWords(g)
    ensures ParseValue(Print(g, t)) == Good(SkeletonOf(g, t), "") <==> Readable(t)
  {
    TextShowsSkeleton(g, t, t);
    NormChangesSkeleton(g, t);
  }

  lemma {:induction false} NormChangesSkeleton(g: GeneralFormat, t: Tag)
    ensures SkeletonOf(g, Norm(t)) == SkeletonOf(g, t) <==> Readable(t)
    decreases t, 0
  {
    match t
    case List(es) =>
      if es == [End] {
        assert |SkeletonsOf(g, es)| == 1;
      } else {
        NormChangesSkeletons(g, es);
      }
    case Compound(es) => NormChangesFields(g, es);
    case _ =>
  }

  lemma {:induction false} NormChangesSkeletons(g: GeneralFormat, es: seq<Tag>)
    ensures SkeletonsOf(g, NormAll(es)) == SkeletonsOf(g, es) <==> forall i :: 0 <= i < |es| ==> Readable(es[i])
    decreases es, 1
  {
    if es != [] {
      var p, q := SkeletonsOf(g, NormAll(es)), SkeletonsOf(g, es);
      NormChangesSkeleton(g, es[0]);
      NormChangesSkeletons(g, es[1..]);
      assert NormAll(es)[1..] == NormAll(es[1..]);
      assert p == [p[0]] + p[1..] && q == [q[0]] + q[1..];
      assert p[1..] == SkeletonsOf(g, NormAll(es[1..])) && q[1..] == SkeletonsOf(g, es[1..]);
      if p == q {
        forall i | 0 <= i < |es| ensures Readable(es[i]) {
          if i > 0 { assert Readable(es[1..][i - 1]); }
        }
      }
    }
  }

  lemma {:induction false} NormChangesFields(g: GeneralFormat, es: seq<Entry>)
    ensures FieldsOf(g, NormEntries(es)) == FieldsOf(g, es) <==> forall i :: 0 <= i < |es| ==> Readable(es[i].value)
    decreases es, 1
  {
    if es != [] {
      var p, q := FieldsOf(g, NormEntries(es)), FieldsOf(g, es);
      NormChangesSkeleton(g, es[0].value);
      NormChangesFields(g, es[1..]);
      assert NormEntries(es)[1..] == NormEntries(es[1..]);
      assert p == [p[0]] + p[1..] && q == [q[0]] + q[1..];
      assert p[1..] == FieldsOf(g, NormEntries(es[1..])) && q[1..] == FieldsOf(g, es[1..]);
      if p == q {
        forall i | 0 <= i < |es| ensures Readable(es[i].value) {
          if i > 0 { assert Readable(es[1..][i - 1].value); }
        }
      }
    }
  }

  /** The smallest case: a list holding a single End prints as the empty list does. */
  lemma SingleEndReadsAsEmpty(g: GeneralFormat)
    ensures Print(g, List([End])) == Print(g, List([]))
    ensures SkeletonOf(g, List([End])) != SkeletonOf(g, List([]))
  {
    assert Texts(g, [End]) == [""];
    assert |SkeletonsOf(g, [End])| == 1;
  }
}
