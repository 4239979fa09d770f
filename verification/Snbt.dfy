/** The text form of a tag: how it is printed, and why the text can be read back. */
module Snbt {
  import opened Decimal

  datatype NumKind = Byte | Short | Int | Long | Float | Double

  /** A number's `value` is its integer, or the bit pattern of a float or double. */
  datatype Tag =
    | End
    | Num(kind: NumKind, value: int)
    | String(text: string)
    | ByteArray(bytes: seq<int>)
    | IntArray(ints: seq<int>)
    | List(elems: seq<Tag>)
    | Compound(entries: seq<Entry>)

  datatype Entry = Entry(key: string, value: Tag)

  // ----- words and quoted strings

  /** The characters of `[A-Za-z0-9._+-]`. */
  predicate IsSimple(c: char) {
    'A' <= c <= 'Z' || 'a' <= c <= 'z' || IsDigit(c) || c == '.' || c == '_' || c == '+' || c == '-'
  }

  predicate IsWord(s: string) {
    s != "" && forall i {:trigger IsSimple(s[i])} :: 0 <= i < |s| ==> IsSimple(s[i])
  }

  predicate IsQuote(c: char) {
    c == '"' || c == '\''
  }

  /** The quote that does not occur first in the string; a double quote if neither occurs. */
  function QuoteFor(s: string): (q: char)
    ensures IsQuote(q)
  {
    if s == "" then '"'
    else if s[0] == '"' then '\''
    else if s[0] == '\'' then '"'
    else QuoteFor(s[1..])
  }

  function EscapeChar(c: char, q: char): string {
    if c == '\\' then "\\\\"
    else if c == '{' then "{{"
    else if c == '}' then "}}"
    else if c == q then ['\\', c]
    else [c]
  }

  function EscapeBody(s: string, q: char): string {
    if s == "" then "" else EscapeChar(s[0], q) + EscapeBody(s[1..], q)
  }

  function Escape(s: string): string {
    if IsWord(s) then s else [QuoteFor(s)] + EscapeBody(s, QuoteFor(s)) + [QuoteFor(s)]
  }

  // ----- numbers

  /** How `{:g}` prints a float and a double, given by their bit patterns. */
  datatype GeneralFormat = GeneralFormat(single: int -> string, double: int -> string)

  /** All that is used of `{:g}`: it prints digits, signs, a point, an exponent, or `inf` and `nan`. */
  ghost predicate PrintsWords(g: GeneralFormat) {
    forall v :: IsWord(g.single(v)) && IsWord(g.double(v))
  }

  function WithPoint(s: string): string {
    if '.' in s || 'e' in s then s else s + ".0"
  }

  function Suffix(k: NumKind): string {
    match k
    case Byte => "b"
    case Short => "s"
    case Int => ""
    case Long => "L"
    case Float => "f"
    case Double => "d"
  }

  function NumText(g: GeneralFormat, k: NumKind, v: int): string {
    (match k
     case Float => WithPoint(g.single(v))
     case Double => WithPoint(g.double(v))
     case _ => IntText(v)) + Suffix(k)
  }

  // ----- printing

  /** The parts with commas between them. */
  function Join(parts: seq<string>): string {
    if parts == [] then "" else if |parts| == 1 then parts[0] else parts[0] + ("," + Join(parts[1..]))
  }

  function Print(g: GeneralFormat, t: Tag): string
    decreases t
  {
    match t
    case End => ""
    case Num(k, v) => NumText(g, k, v)
    case String(s) => Escape(s)
    case ByteArray(bs) => "[B;" + Join(NumTexts(g, Byte, bs)) + "]"
    case IntArray(ns) => "[I;" + Join(NumTexts(g, Int, ns)) + "]"
    case List(es) => "[" + Join(Texts(g, es)) + "]"
    case Compound(es) => "{" + Join(EntryTexts(g, es)) + "}"
  }

  function NumTexts(g: GeneralFormat, k: NumKind, ns: seq<int>): (r: seq<string>)
    ensures |r| == |ns|
  {
    if ns == [] then [] else [NumText(g, k, ns[0])] + NumTexts(g, k, ns[1..])
  }

  function Texts(g: GeneralFormat, es: seq<Tag>): (r: seq<string>)
    ensures |r| == |es|
    decreases es
  {
    if es == [] then [] else [Print(g, es[0])] + Texts(g, es[1..])
  }

  function EntryTexts(g: GeneralFormat, es: seq<Entry>): (r: seq<string>)
    ensures |r| == |es|
    decreases es
  {
    if es == [] then [] else [Escape(es[0].key) + (":" + Print(g, es[0].value))] + EntryTexts(g, es[1..])
  }

  // ----- what the text shows

  /** A tag with its scalars reduced to how they are spelled: a bare word, or a quoted string. */
  datatype Skeleton =
    | Blank
    | Word(word: string)
    | Quoted(text: string)
    | Bytes(words: seq<string>)
    | Ints(words: seq<string>)
    | Items(items: seq<Skeleton>)
    | Fields(fields: seq<Field>)

  datatype Field = Field(key: string, value: Skeleton)

  function SkeletonOf(g: GeneralFormat, t: Tag): Skeleton
    decreases t
  {
    match t
    case End => Blank
    case Num(k, v) => Word(NumText(g, k, v))
    case String(s) => if IsWord(s) then Word(s) else Quoted(s)
    case ByteArray(bs) => Bytes(NumTexts(g, Byte, bs))
    case IntArray(ns) => Ints(NumTexts(g, Int, ns))
    case List(es) => Items(SkeletonsOf(g, es))
    case Compound(es) => Fields(FieldsOf(g, es))
  }

  function SkeletonsOf(g: GeneralFormat, es: seq<Tag>): (r: seq<Skeleton>)
    ensures |r| == |es|
    decreases es
  {
    if es == [] then [] else [SkeletonOf(g, es[0])] + SkeletonsOf(g, es[1..])
  }

  function FieldsOf(g: GeneralFormat, es: seq<Entry>): (r: seq<Field>)
    ensures |r| == |es|
    decreases es
  {
    if es == [] then [] else [Field(es[0].key, SkeletonOf(g, es[0].value))] + FieldsOf(g, es[1..])
  }

  // ----- reading it back

  datatype Parsed<+T> = Bad | Good(value: T, rest: string)

  /** A quoted string after its opening quote: a backslash takes the next character as it is, braces come in pairs. */
  function ParseBody(s: string, q: char): (r: Parsed<string>)
    ensures r.Good? ==> |r.rest| < |s|
    decreases |s|
  {
    if s == "" then Bad
    else if s[0] == q then Good("", s[1..])
    else if s[0] == '\\' || s[0] == '{' || s[0] == '}' then
      if |s| == 1 || (s[0] != '\\' && s[1] != s[0]) then Bad else
      var r := ParseBody(s[2..], q);
      if r.Bad? then Bad else Good([s[1]] + r.value, r.rest)
    else
      var r := ParseBody(s[1..], q);
      if r.Bad? then Bad else Good([s[0]] + r.value, r.rest)
  }

  /** The longest run of simple characters. */
  function WordLength(s: string): (n: nat)
    ensures n <= |s| && (n > 0 <==> s != "" && IsSimple(s[0]))
  {
    if s == "" || !IsSimple(s[0]) then 0 else 1 + WordLength(s[1..])
  }

  function ParseScalar(s: string): (r: Parsed<Skeleton>)
    ensures r.Good? ==> |r.rest| < |s| && (r.value.Word? || r.value.Quoted?)
  {
    if s == "" then Bad
    else if IsQuote(s[0]) then
      var r := ParseBody(s[1..], s[0]);
      if r.Bad? then Bad else Good(Quoted(r.value), r.rest)
    else if IsSimple(s[0]) then Good(Word(s[..WordLength(s)]), s[WordLength(s)..])
    else Bad
  }

  function ParseWords(s: string): (r: Parsed<seq<string>>)
    ensures r.Good? ==> |r.rest| < |s|
    decreases |s|
  {
    var w := ParseScalar(s);
    if w.Bad? || !w.value.Word? || w.rest == "" then Bad
    else if w.rest[0] == ']' then Good([w.value.word], w.rest[1..])
    else if w.rest[0] == ',' then
      var r := ParseWords(w.rest[1..]);
      if r.Bad? then Bad else Good([w.value.word] + r.value, r.rest)
    else Bad
  }

  function ParseArray(s: string): (r: Parsed<seq<string>>)
    ensures r.Good? ==> |r.rest| < |s|
  {
    if s != "" && s[0] == ']' then Good([], s[1..]) else ParseWords(s)
  }

  predicate Closes(c: char) {
    c == ',' || c == ']' || c == '}'
  }

  function ParseValue(s: string): (r: Parsed<Skeleton>)
    ensures r.Good? ==> |r.rest| <= |s|
    decreases |s|, 0
  {
    if s == "" || Closes(s[0]) then Good(Blank, s)
    else if "[B;" <= s then
      var r := ParseArray(s[3..]);
      if r.Bad? then Bad else Good(Bytes(r.value), r.rest)
    else if "[I;" <= s then
      var r := ParseArray(s[3..]);
      if r.Bad? then Bad else Good(Ints(r.value), r.rest)
    else if s[0] == '[' then
      if |s| > 1 && s[1] == ']' then Good(Items([]), s[2..]) else
      var r := ParseItems(s[1..]);
      if r.Bad? then Bad else Good(Items(r.value), r.rest)
    else if s[0] == '{' then
      if |s| > 1 && s[1] == '}' then Good(Fields([]), s[2..]) else
      var r := ParseFields(s[1..]);
      if r.Bad? then Bad else Good(Fields(r.value), r.rest)
    else ParseScalar(s)
  }

  function ParseItems(s: string): (r: Parsed<seq<Skeleton>>)
    ensures r.Good? ==> |r.rest| < |s|
    decreases |s|, 1
  {
    var v := ParseValue(s);
    if v.Bad? || v.rest == "" then Bad
    else if v.rest[0] == ']' then Good([v.value], v.rest[1..])
    else if v.rest[0] == ',' then
      var r := ParseItems(v.rest[1..]);
      if r.Bad? then Bad else Good([v.value] + r.value, r.rest)
    else Bad
  }

  function ParseFields(s: string): (r: Parsed<seq<Field>>)
    ensures r.Good? ==> |r.rest| < |s|
    decreases |s|, 1
  {
    var k := ParseScalar(s);
    if k.Bad? || k.rest == "" || k.rest[0] != ':' then Bad else
    var v := ParseValue(k.rest[1..]);
    if v.Bad? || v.rest == "" then Bad else
    var field := Field(if k.value.Word? then k.value.word else k.value.text, v.value);
    if v.rest[0] == '}' then Good([field], v.rest[1..])
    else if v.rest[0] == ',' then
      var r := ParseFields(v.rest[1..]);
      if r.Bad? then Bad else Good([field] + r.value, r.rest)
    else Bad
  }
}
