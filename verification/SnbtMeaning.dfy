/** What the text does not show: when two tags print alike. */
module SnbtMeaning {
  import opened Basics
  import opened Decimal
  import opened Snbt
  import opened SnbtReading

  predicate IsReal(k: NumKind) {
    k == Float || k == Double
  }

  /** The same number for all the text shows: floats and doubles are compared as `{:g}` prints them. */
  predicate SameNumber(g: GeneralFormat, k: NumKind, v: int, l: NumKind, w: int) {
    && k == l
    && match k
       case Float => WithPoint(g.single(v)) == WithPoint(g.single(w))
       case Double => WithPoint(g.double(v)) == WithPoint(g.double(w))
       case _ => v == w
  }

  /**
   * The same tag, except that a number may stand for the string that spells it, and that floats and doubles
   * are only compared as they are printed.
   */
  predicate Alike(g: GeneralFormat, a: Tag, b: Tag)
    decreases a
  {
    match a
    case End => b.End?
    case Num(k, v) =>
      if b.String? then b.text == NumText(g, k, v) else b.Num? && SameNumber(g, k, v, b.kind, b.value)
    case String(s) => if b.Num? then s == NumText(g, b.kind, b.value) else a == b
    case ByteArray(bs) => a == b
    case IntArray(ns) => a == b
    case List(es) =>
      b.List? && |es| == |b.elems| && forall i :: 0 <= i < |es| ==> Alike(g, es[i], b.elems[i])
    case Compound(es) =>
      && b.Compound? && |es| == |b.entries|
      && forall i :: 0 <= i < |es| ==> AlikeEntries(g, es[i], b.entries[i])
  }

  predicate AlikeEntries(g: GeneralFormat, a: Entry, b: Entry)
    decreases a
  {
    a.key == b.key && Alike(g, a.value, b.value)
  }

  /** The last character gives the kind away: only an int has no suffix. */
  lemma NumTextShowsNumber(g: GeneralFormat, k: NumKind, v: int, l: NumKind, w: int)
    requires PrintsWords(g)
    ensures NumText(g, k, v) == NumText(g, l, w) <==> SameNumber(g, k, v, l, w)
  {
    if NumText(g, k, v) == NumText(g, l, w) {
      EndsInSuffix(g, k, v);
      EndsInSuffix(g, l, w);
      var body := Body(g, k, v);
      if k == Int {
        assert NumText(g, k, v) == body;
      } else {
        assert NumText(g, k, v)[..|body|] == body && NumText(g, l, w)[..|body|] == Body(g, l, w);
      }
      if !IsReal(k) { IntTextInjective(v, w); }
    }
  }

  function Body(g: GeneralFormat, k: NumKind, v: int): string {
    match k
    case Float => WithPoint(g.single(v))
    case Double => WithPoint(g.double(v))
    case _ => IntText(v)
  }

  lemma EndsInSuffix(g: GeneralFormat, k: NumKind, v: int)
    ensures var s := NumText(g, k, v);
            && s == Body(g, k, v) + Suffix(k) && s != ""
            && (if k == Int then IsDigit(s[|s| - 1]) else [s[|s| - 1]] == Suffix(k))
  {
    ValueOfText(if v < 0 then -v else v);
  }

  lemma {:induction false} NumTextsShowNumbers(g: GeneralFormat, k: NumKind, ms: seq<int>, ns: seq<int>)
    requires PrintsWords(g) && !IsReal(k)
    ensures NumTexts(g, k, ms) == NumTexts(g, k, ns) <==> ms == ns
  {
    if ms != [] && |ms| == |ns| {
      NumTextShowsNumber(g, k, ms[0], k, ns[0]);
      NumTextsShowNumbers(g, k, ms[1..], ns[1..]);
      SameParts(NumTexts(g, k, ms), NumTexts(g, k, ns));
      SameParts(ms, ns);
    }
  }

  lemma {:induction false} SkeletonsAlike(g: GeneralFormat, a: Tag, b: Tag)
    requires PrintsWords(g)
    ensures SkeletonOf(g, a) == SkeletonOf(g, b) <==> Alike(g, a, b)
    decreases a, 0
  {
    match a
    case End =>
    case Num(k, v) =>
      NumTextIsWord(g, k, v);
      if b.Num? { NumTextShowsNumber(g, k, v, b.kind, b.value); }
    case String(s) =>
      if b.Num? { NumTextIsWord(g, b.kind, b.value); }
    case ByteArray(bs) =>
      if b.ByteArray? { NumTextsShowNumbers(g, Byte, bs, b.bytes); }
    case IntArray(ns) =>
      if b.IntArray? { NumTextsShowNumbers(g, Int, ns, b.ints); }
    case List(es) =>
      if b.List? { ElemsAlike(g, es, b.elems); }
    case Compound(es) =>
      if b.Compound? { EntriesAlike(g, es, b.entries); }
  }

  lemma {:induction false} ElemsAlike(g: GeneralFormat, ds: seq<Tag>, es: seq<Tag>)
    requires PrintsWords(g)
    ensures SkeletonsOf(g, ds) == SkeletonsOf(g, es)
            <==> |ds| == |es| && forall i :: 0 <= i < |ds| ==> Alike(g, ds[i], es[i])
    decreases ds, 1
  {
    if ds != [] && |ds| == |es| {
      var p, q := SkeletonsOf(g, ds), SkeletonsOf(g, es);
      SkeletonsAlike(g, ds[0], es[0]);
      ElemsAlike(g, ds[1..], es[1..]);
      assert p == [p[0]] + p[1..] && q == [q[0]] + q[1..];
      assert p[1..] == SkeletonsOf(g, ds[1..]) && q[1..] == SkeletonsOf(g, es[1..]);
      if p == q {
        forall i | 0 <= i < |ds| ensures Alike(g, ds[i], es[i]) {
          if i > 0 { assert Alike(g, ds[1..][i - 1], es[1..][i - 1]); }
        }
      }
    }
  }

  lemma {:induction false} EntriesAlike(g: GeneralFormat, ds: seq<Entry>, es: seq<Entry>)
    requires PrintsWords(g)
    ensures FieldsOf(g, ds) == FieldsOf(g, es)
            <==> |ds| == |es| && forall i :: 0 <= i < |ds| ==> AlikeEntries(g, ds[i], es[i])
    decreases ds, 1
  {
    if ds != [] && |ds| == |es| {
      var p, q := FieldsOf(g, ds), FieldsOf(g, es);
      SkeletonsAlike(g, ds[0].value, es[0].value);
      EntriesAlike(g, ds[1..], es[1..]);
      assert p == [p[0]] + p[1..] && q == [q[0]] + q[1..];
      assert p[1..] == FieldsOf(g, ds[1..]) && q[1..] == FieldsOf(g, es[1..]);
      if p == q {
        forall i | 0 <= i < |ds| ensures AlikeEntries(g, ds[i], es[i]) {
          if i > 0 { assert AlikeEntries(g, ds[1..][i - 1], es[1..][i - 1]); }
        }
      }
    }
  }

  /** Two tags print the same text exactly when they are alike but for single Ends in lists. */
  lemma PrintAlike(g: GeneralFormat, a: Tag, b: Tag)
    requires PrintsWords(g)
    ensures Print(g, a) == Print(g, b) <==> Alike(g, Norm(a), Norm(b))
  {
    TextShowsSkeleton(g, a, b);
    SkeletonsAlike(g, Norm(a), Norm(b));
  }

  /** No float, no double and no string that could be taken for a number. */
  ghost predicate Unambiguous(t: Tag)
    decreases t
  {
    match t
    case Num(k, _) => !IsReal(k)
    case String(s) => IsWord(s) ==> s[|s| - 1] !in "0123456789bsLfd"
    case List(es) => forall i :: 0 <= i < |es| ==> Unambiguous(es[i])
    case Compound(es) => forall i :: 0 <= i < |es| ==> Unambiguous(es[i].value)
    case _ => true
  }

  lemma SpelledNumber(g: GeneralFormat, k: NumKind, v: int)
    requires PrintsWords(g)
    ensures !Unambiguous(String(NumText(g, k, v)))
  {
    NumTextIsWord(g, k, v);
    EndsInSuffix(g, k, v);
  }

  lemma {:induction false} AlikeIsSame(g: GeneralFormat, a: Tag, b: Tag)
    requires PrintsWords(g) && Unambiguous(a) && Unambiguous(b) && Alike(g, a, b)
    ensures a == b
    decreases a
  {
    match a
    case Num(k, v) =>
      if b.String? { SpelledNumber(g, k, v); }
    case String(s) =>
      if b.Num? { SpelledNumber(g, b.kind, b.value); }
    case List(es) =>
      forall i | 0 <= i < |es| ensures es[i] == b.elems[i] { AlikeIsSame(g, es[i], b.elems[i]); }
    case Compound(es) =>
      forall i | 0 <= i < |es| ensures es[i] == b.entries[i] {
        AlikeIsSame(g, es[i].value, b.entries[i].value);
      }
    case _ =>
  }

  lemma {:induction false} NormUnambiguous(t: Tag)
    requires Unambiguous(t)
    ensures Unambiguous(Norm(t))
    decreases t
  {
    match t
    case List(es) =>
      if es != [End] {
        forall i | 0 <= i < |es| ensures Unambiguous(NormAll(es)[i]) {
          NormAllAt(es, i);
          NormUnambiguous(es[i]);
        }
      }
    case Compound(es) =>
      forall i | 0 <= i < |es| ensures Unambiguous(NormEntries(es)[i].value) {
        NormEntriesAt(es, i);
        NormUnambiguous(es[i].value);
      }
    case _ =>
  }

  lemma {:induction false} AlikeItself(g: GeneralFormat, t: Tag)
    ensures Alike(g, t, t)
    decreases t
  {
    match t
    case List(es) =>
      forall i | 0 <= i < |es| ensures Alike(g, es[i], es[i]) { AlikeItself(g, es[i]); }
    case Compound(es) =>
      forall i | 0 <= i < |es| ensures AlikeEntries(g, es[i], es[i]) { AlikeItself(g, es[i].value); }
    case _ =>
  }

  /** On such tags printing loses nothing but single Ends in lists. */
  lemma PrintInjective(g: GeneralFormat, a: Tag, b: Tag)
    requires PrintsWords(g) && Unambiguous(a) && Unambiguous(b)
    ensures Print(g, a) == Print(g, b) <==> Norm(a) == Norm(b)
  {
    PrintAlike(g, a, b);
    if Print(g, a) == Print(g, b) {
      NormUnambiguous(a);
      NormUnambiguous(b);
      AlikeIsSame(g, Norm(a), Norm(b));
    } else if Norm(a) == Norm(b) {
      AlikeItself(g, Norm(a));
    }
  }
}
