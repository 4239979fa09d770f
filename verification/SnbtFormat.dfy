/** The formatters as they run: text is appended piece by piece, separators by a loop over the elements. */
module SnbtFormat {
  import opened Basics
  import opened Snbt

  /** The quote is known only after the loop, so a placeholder stands for it until then. */
  method FormatEscaped(value: string) returns (out: string)
    ensures out == Escape(value)
  {
    if IsWord(value) {
      return value;
    }
    out := " ";
    var quote: char := '\0';
    var i := 0;
    ghost var q, done := QuoteFor(value), "";
    while i < |value|
      invariant 0 <= i <= |value|
      invariant out == " " + done
      invariant quote == '\0' ==> QuoteFor(value[i..]) == q
      invariant quote != '\0' ==> quote == q
      invariant done + EscapeBody(value[i..], q) == EscapeBody(value, q)
    {
      var c := value[i];
      ghost var was := out;
      EscapeStep(value, i, q, done);
      PushTwo(out, '\\', c);
      if c == '\\' {
        out := out + "\\";
        out := out + "\\";
      } else if c == '{' {
        out := out + "{{";
      } else if c == '}' {
        out := out + "}}";
      } else if c == '"' || c == '\'' {
        if quote == '\0' {
          quote := if c == '"' then '\'' else '"';
        }
        if c == quote {
          out := out + "\\";
        }
        out := out + [c];
      } else {
        out := out + [c];
      }
      Regroup(" ", done, EscapeChar(c, q));
      assert out == " " + (done + EscapeChar(c, q));
      done := done + EscapeChar(c, q);
      i := i + 1;
    }
    assert value[i..] == "" && done == EscapeBody(value, q);
    if quote == '\0' {
      quote := '"';
    }
    Quoting(done, quote);
    out := out[0 := quote];
    out := out + [quote];
  }

  lemma EscapeStep(value: string, i: nat, q: char, done: string)
    requires i < |value|
    ensures QuoteFor(value[i..])
            == if value[i] == '"' then '\'' else if value[i] == '\'' then '"' else QuoteFor(value[i + 1..])
    ensures done + EscapeBody(value[i..], q) == (done + EscapeChar(value[i], q)) + EscapeBody(value[i + 1..], q)
  {
    assert value[i..][1..] == value[i + 1..] && value[i..][0] == value[i];
    Regroup(done, EscapeChar(value[i], q), EscapeBody(value[i + 1..], q));
  }

  lemma PushTwo(out: string, a: char, b: char)
    ensures out + [a] + [b] == out + [a, b]
  {
  }

  lemma Quoting(body: string, q: char)
    ensures (" " + body)[0 := q] + [q] == [q] + body + [q]
  {
    assert (" " + body)[0 := q] == [q] + body;
  }

  /** What is still to be appended when the first `i` elements are out. */
  ghost function Remaining(parts: seq<string>, i: nat): string
    requires i <= |parts|
  {
    if i == 0 then Join(parts) else if i == |parts| then "" else "," + Join(parts[i..])
  }

  lemma RemainingStep(parts: seq<string>, i: nat)
    requires i < |parts|
    ensures Remaining(parts, i) == (if i == 0 then "" else ",") + (parts[i] + Remaining(parts, i + 1))
  {
    var s := parts[i..];
    assert s[1..] == parts[i + 1..] && parts[0..] == parts;
    assert Join(s) == parts[i] + Remaining(parts, i + 1);
  }

  lemma Appended(out: string, sep: string, part: string, more: string)
    ensures (out + sep + part) + more == out + (sep + (part + more))
  {
    Regroup(out + sep, part, more);
    Regroup(out, sep, part + more);
  }

  lemma NumTextsAt(g: GeneralFormat, k: NumKind, ns: seq<int>, i: nat)
    requires i < |ns|
    ensures NumTexts(g, k, ns)[i] == NumText(g, k, ns[i])
  {
    if i > 0 { NumTextsAt(g, k, ns[1..], i - 1); }
  }

  lemma TextsAt(g: GeneralFormat, es: seq<Tag>, i: nat)
    requires i < |es|
    ensures Texts(g, es)[i] == Print(g, es[i])
  {
    if i > 0 { TextsAt(g, es[1..], i - 1); }
  }

  lemma EntryTextsAt(g: GeneralFormat, es: seq<Entry>, i: nat)
    requires i < |es|
    ensures EntryTexts(g, es)[i] == Escape(es[i].key) + (":" + Print(g, es[i].value))
  {
    if i > 0 { EntryTextsAt(g, es[1..], i - 1); }
  }

  /** The separator is a variable, empty until the first element is out. */
  method FormatByteArray(g: GeneralFormat, bytes: seq<int>) returns (out: string)
    ensures out == Print(g, ByteArray(bytes))
  {
    out := "[B;";
    var sep := "";
    ghost var parts := NumTexts(g, Byte, bytes);
    for i := 0 to |bytes|
      invariant sep == if i == 0 then "" else ","
      invariant out + Remaining(parts, i) == "[B;" + Join(parts)
    {
      var part := NumText(g, Byte, bytes[i]);
      NumTextsAt(g, Byte, bytes, i);
      RemainingStep(parts, i);
      Appended(out, sep, part, Remaining(parts, i + 1));
      out := out + sep + part;
      sep := ",";
    }
    out := out + "]";
  }

  method JoinInts(g: GeneralFormat, ints: seq<int>) returns (out: string)
    ensures out == Join(NumTexts(g, Int, ints))
  {
    out := "";
    ghost var parts := NumTexts(g, Int, ints);
    for i := 0 to |ints|
      invariant out + Remaining(parts, i) == Join(parts)
    {
      var part := NumText(g, Int, ints[i]);
      NumTextsAt(g, Int, ints, i);
      RemainingStep(parts, i);
      Appended(out, if i == 0 then "" else ",", part, Remaining(parts, i + 1));
      if i != 0 {
        out := out + ",";
      }
      out := out + part;
    }
  }

  method JoinElems(g: GeneralFormat, elems: seq<Tag>) returns (out: string)
    ensures out == Join(Texts(g, elems))
    decreases elems, 1
  {
    out := "";
    ghost var parts := Texts(g, elems);
    for i := 0 to |elems|
      invariant out + Remaining(parts, i) == Join(parts)
    {
      var part := Format(g, elems[i]);
      TextsAt(g, elems, i);
      RemainingStep(parts, i);
      Appended(out, if i == 0 then "" else ",", part, Remaining(parts, i + 1));
      if i != 0 {
        out := out + ",";
      }
      out := out + part;
    }
  }

  method JoinEntries(g: GeneralFormat, entries: seq<Entry>) returns (out: string)
    ensures out == Join(EntryTexts(g, entries))
    decreases entries, 1
  {
    out := "";
    ghost var parts := EntryTexts(g, entries);
    for i := 0 to |entries|
      invariant out + Remaining(parts, i) == Join(parts)
    {
      var part := FormatEntry(g, entries[i]);
      EntryTextsAt(g, entries, i);
      RemainingStep(parts, i);
      Appended(out, if i == 0 then "" else ",", part, Remaining(parts, i + 1));
      if i != 0 {
        out := out + ",";
      }
      out := out + part;
    }
  }

  method FormatEntry(g: GeneralFormat, entry: Entry) returns (out: string)
    ensures out == Escape(entry.key) + (":" + Print(g, entry.value))
    decreases entry, 1
  {
    out := FormatEscaped(entry.key);
    var value := Format(g, entry.value);
    out := out + (":" + value);
  }

  /** The formatter of every tag kind prints what `Print` specifies. */
  method Format(g: GeneralFormat, tag: Tag) returns (out: string)
    ensures out == Print(g, tag)
    decreases tag, 0
  {
    match tag
    case End => out := "";
    case Num(k, v) => out := NumText(g, k, v);
    case String(s) => out := FormatEscaped(s);
    case ByteArray(bs) => out := FormatByteArray(g, bs);
    case IntArray(ns) =>
      var body := JoinInts(g, ns);
      out := "[I;" + body + "]";
    case List(es) =>
      var body := JoinElems(g, es);
      out := "[" + body + "]";
    case Compound(es) =>
      var body := JoinEntries(g, es);
      out := "{" + body + "}";
  }
}
