/** The line of a recorded event determines the event: the JSON it is written as can be decoded in one way only,
    so a codec with the guarantees the review store relies on exists. */
module EventText {
  import opened LogText
  import opened Ledger
  import opened Review

  // ----- Strings

  /** The character behind a backslash and one letter. */
  function Behind(letter: char): char {
    if letter == 'n' then '\n'
    else if letter == 'r' then '\r'
    else if letter == 't' then '\t'
    else if letter == 'b' then 8 as char
    else if letter == 'f' then 12 as char
    else letter
  }

  lemma EscapedForm(c: char)
    ensures var e := Escape(c);
            || (e == [c] && c != '\\' && c != '"')
            || (|e| == 2 && e[0] == '\\' && e[1] != 'u' && Behind(e[1]) == c)
            || (|e| == 6 && e[0] == '\\' && e[1] == 'u' && c as int < 0x20
                && e[4] == HexDigit(c as int / 16) && e[5] == HexDigit(c as int % 16))
  {}

  lemma HexDigitsDiffer(m: nat, n: nat)
    requires m < 16 && n < 16 && HexDigit(m) == HexDigit(n)
    ensures m == n
  {}

  /** Two escaped characters that start the same text are the same character. */
  lemma EscapeUnique(c: char, d: char, x: string, y: string)
    requires Escape(c) + x == Escape(d) + y
    ensures c == d && x == y
  {
    hide Escape, HexDigit;
    var s := Escape(c) + x;
    EscapedForm(c);
    EscapedForm(d);
    assert forall i :: 0 <= i < |Escape(c)| ==> s[i] == Escape(c)[i];
    assert forall i :: 0 <= i < |Escape(d)| ==> s[i] == Escape(d)[i];
    if |Escape(c)| == 6 && |Escape(d)| == 6 {
      HexDigitsDiffer(c as int / 16, d as int / 16);
      HexDigitsDiffer(c as int % 16, d as int % 16);
    }
    assert x == s[|Escape(c)|..] && y == s[|Escape(d)|..];
  }

  lemma EscapeStarts(c: char, x: string)
    ensures (Escape(c) + x)[0] != '"'
  {
    EscapedForm(c);
  }

  lemma {:induction false} EscapeAllFront(s: string)
    requires s != ""
    ensures EscapeAll(s) == Escape(s[0]) + EscapeAll(s[1..])
  {
    hide Escape;
    var front := s[..|s| - 1];
    if front == "" {
      assert s[1..] == "";
    } else {
      EscapeAllFront(front);
      assert front[1..] == s[1..][..|s[1..]| - 1];
      assert EscapeAll(s[1..]) == EscapeAll(front[1..]) + Escape(s[|s| - 1]);
    }
  }

  /** A closing quote ends an escaped text in one place only. */
  lemma {:induction false} TextUnique(s: string, t: string, x: string, y: string)
    requires EscapeAll(s) + "\"" + x == EscapeAll(t) + "\"" + y
    ensures s == t && x == y
  {
    hide Escape, EscapeAll;
    NothingEscaped();
    if s == "" && t == "" {
      assert x == (EscapeAll(s) + "\"" + x)[1..] && y == (EscapeAll(t) + "\"" + y)[1..];
    } else if s == "" {
      EscapeAllFront(t);
      EscapeStarts(t[0], EscapeAll(t[1..]) + "\"" + y);
      Regroup(Escape(t[0]), EscapeAll(t[1..]), "\"", y);
    } else if t == "" {
      EscapeAllFront(s);
      EscapeStarts(s[0], EscapeAll(s[1..]) + "\"" + x);
      Regroup(Escape(s[0]), EscapeAll(s[1..]), "\"", x);
    } else {
      EscapeAllFront(s);
      EscapeAllFront(t);
      Regroup(Escape(s[0]), EscapeAll(s[1..]), "\"", x);
      Regroup(Escape(t[0]), EscapeAll(t[1..]), "\"", y);
      EscapeUnique(s[0], t[0], EscapeAll(s[1..]) + "\"" + x, EscapeAll(t[1..]) + "\"" + y);
      TextUnique(s[1..], t[1..], x, y);
      assert s == [s[0]] + s[1..] && t == [t[0]] + t[1..];
    }
  }

  lemma NothingEscaped()
    ensures EscapeAll("") == ""
  {}

  lemma Regroup(a: string, b: string, c: string, d: string)
    ensures (a + b) + c + d == a + (b + c + d)
  {}

  lemma QuotedUnique(s: string, t: string, x: string, y: string)
    requires Quoted(s) + x == Quoted(t) + y
    ensures s == t && x == y
  {
    hide EscapeAll;
    var whole := Quoted(s) + x;
    assert whole[1..] == EscapeAll(s) + "\"" + x;
    assert whole[1..] == EscapeAll(t) + "\"" + y;
    TextUnique(s, t, x, y);
  }

  // ----- Numbers

  predicate Digit(c: char) {
    '0' <= c <= '9'
  }

  lemma {:induction false} DecimalDigits(n: nat)
    ensures Decimal(n) != "" && forall i :: 0 <= i < |Decimal(n)| ==> Digit(Decimal(n)[i])
    ensures Decimal(n)[|Decimal(n)| - 1] as int - '0' as int == n % 10
    ensures Decimal(n)[..|Decimal(n)| - 1] == if n < 10 then "" else Decimal(n / 10)
  {
    if n >= 10 { DecimalDigits(n / 10); }
  }

  lemma {:induction false} DecimalInjective(m: nat, n: nat)
    requires Decimal(m) == Decimal(n)
    ensures m == n
  {
    hide Decimal;
    DecimalDigits(m);
    DecimalDigits(n);
    if m >= 10 && n >= 10 {
      DecimalInjective(m / 10, n / 10);
    } else {
      if m >= 10 { DecimalDigits(m / 10); }
      if n >= 10 { DecimalDigits(n / 10); }
    }
  }

  predicate NoDigitFirst(s: string) {
    s == "" || !Digit(s[0])
  }

  lemma DecimalUnique(m: nat, n: nat, x: string, y: string)
    requires Decimal(m) + x == Decimal(n) + y && NoDigitFirst(x) && NoDigitFirst(y)
    ensures m == n && x == y
  {
    hide Decimal;
    DecimalDigits(m);
    DecimalDigits(n);
    var s := Decimal(m) + x;
    assert forall i :: 0 <= i < |Decimal(m)| ==> s[i] == Decimal(m)[i];
    assert forall i :: 0 <= i < |Decimal(n)| ==> s[i] == Decimal(n)[i];
    assert |Decimal(m)| < |s| ==> s[|Decimal(m)|] == x[0];
    assert |Decimal(n)| < |s| ==> s[|Decimal(n)|] == y[0];
    assert Decimal(m) == s[..|Decimal(m)|] && Decimal(n) == s[..|Decimal(n)|];
    assert x == s[|Decimal(m)|..] && y == s[|Decimal(n)|..];
    DecimalInjective(m, n);
  }

  lemma ScalarUnique(v: Scalar, w: Scalar, x: string, y: string)
    requires v.Number? == w.Number? && ScalarText(v) + x == ScalarText(w) + y && NoDigitFirst(x) && NoDigitFirst(y)
    ensures v == w && x == y
  {
    hide Quoted, Decimal;
    match v
    case Number(n) => DecimalUnique(n, w.n, x, y);
    case Words(s) => QuotedUnique(s, w.s, x, y);
  }

  // ----- Objects

  function FieldText(f: Field): string {
    Quoted(KeyText(f.key)) + ":" + ScalarText(f.value)
  }

  /** The fields after the first, each behind its comma. */
  function MoreText(fields: seq<Field>): string {
    if fields == [] then "" else "," + FieldText(fields[0]) + MoreText(fields[1..])
  }

  lemma {:induction false} MoreAppend(fields: seq<Field>, f: Field)
    ensures MoreText(fields + [f]) == MoreText(fields) + "," + FieldText(f)
  {
    hide FieldText;
    if fields == [] {
      assert [f][1..] == [];
      assert MoreText([f]) == "," + FieldText(f) + MoreText([]);
    } else {
      assert (fields + [f])[1..] == fields[1..] + [f];
      MoreAppend(fields[1..], f);
    }
  }

  lemma {:induction false} FieldsFromFront(fields: seq<Field>)
    requires fields != []
    ensures FieldsText(fields) == FieldText(fields[0]) + MoreText(fields[1..])
  {
    hide FieldText, FieldsText, MoreText;
    var front, last := fields[..|fields| - 1], fields[|fields| - 1];
    if front == [] {
      SingleField(last);
      assert fields == [last] && fields[1..] == [];
    } else {
      FieldsFromFront(front);
      assert fields[1..] == front[1..] + [last];
      MoreAppend(front[1..], last);
      LastField(fields);
    }
  }

  lemma SingleField(f: Field)
    ensures FieldsText([f]) == FieldText(f) + MoreText([])
  {
    assert FieldsText([f][..0]) == "";
  }

  lemma LastField(fields: seq<Field>)
    requires |fields| > 1
    ensures FieldsText(fields) == FieldsText(fields[..|fields| - 1]) + "," + FieldText(fields[|fields| - 1])
  {
    hide Quoted, ScalarText, KeyText;
    var last := fields[|fields| - 1];
    Regroup(FieldsText(fields[..|fields| - 1]) + ",", Quoted(KeyText(last.key)), ":", ScalarText(last.value));
  }

  /** Same keys in the same order, with values of the same kind. */
  predicate SameShape(a: seq<Field>, b: seq<Field>) {
    |a| == |b| && forall i :: 0 <= i < |a| ==> a[i].key == b[i].key && a[i].value.Number? == b[i].value.Number?
  }

  lemma FieldUnique(f: Field, g: Field, x: string, y: string)
    requires f.key == g.key && f.value.Number? == g.value.Number?
    requires FieldText(f) + x == FieldText(g) + y && NoDigitFirst(x) && NoDigitFirst(y)
    ensures f == g && x == y
  {
    hide Quoted, ScalarText, KeyText;
    var head := Quoted(KeyText(f.key)) + ":";
    var whole := FieldText(f) + x;
    assert whole[|head|..] == ScalarText(f.value) + x;
    assert whole[|head|..] == ScalarText(g.value) + y;
    ScalarUnique(f.value, g.value, x, y);
  }

  lemma {:induction false} MoreUnique(a: seq<Field>, b: seq<Field>, x: string, y: string)
    requires SameShape(a, b) && MoreText(a) + "}" + x == MoreText(b) + "}" + y
    ensures a == b && x == y
  {
    hide FieldText;
    if a == [] {
      assert x == (MoreText(a) + "}" + x)[1..] && y == (MoreText(b) + "}" + y)[1..];
    } else {
      var p, q := MoreText(a[1..]) + "}" + x, MoreText(b[1..]) + "}" + y;
      var whole := MoreText(a) + "}" + x;
      assert whole[1..] == FieldText(a[0]) + p;
      assert whole[1..] == FieldText(b[0]) + q;
      MoreStarts(a[1..], x);
      MoreStarts(b[1..], y);
      FieldUnique(a[0], b[0], p, q);
      MoreUnique(a[1..], b[1..], x, y);
      assert a == [a[0]] + a[1..] && b == [b[0]] + b[1..];
    }
  }

  lemma MoreStarts(fields: seq<Field>, x: string)
    ensures NoDigitFirst(MoreText(fields) + "}" + x)
  {}

  /** No object's text starts another object of the same shape, unless they are the same. */
  lemma ObjectUnique(a: seq<Field>, b: seq<Field>, x: string, y: string)
    requires SameShape(a, b) && a != [] && ObjectText(a) + x == ObjectText(b) + y
    ensures a == b && x == y
  {
    hide FieldText, FieldsText;
    FieldsFromFront(a);
    FieldsFromFront(b);
    var whole := ObjectText(a) + x;
    var p, q := MoreText(a[1..]) + "}" + x, MoreText(b[1..]) + "}" + y;
    assert whole[1..] == FieldText(a[0]) + p;
    assert whole[1..] == FieldText(b[0]) + q;
    MoreStarts(a[1..], x);
    MoreStarts(b[1..], y);
    FieldUnique(a[0], b[0], p, q);
    MoreUnique(a[1..], b[1..], x, y);
    assert a == [a[0]] + a[1..] && b == [b[0]] + b[1..];
  }

  // ----- Events

  lemma ScalarsShape(a: Entry, b: Entry)
    requires Recorded(a) && Recorded(b)
    ensures SameShape(Scalars(a), Scalars(b)) && Scalars(a) != []
  {}

  lemma ScalarsFixEntry(a: Entry, b: Entry)
    requires Recorded(a) && Recorded(b) && Scalars(a) == Scalars(b)
    ensures a == b
  {
    var f, g := Scalars(a), Scalars(b);
    assert f[0] == g[0] && f[1] == g[1] && f[2] == g[2] && f[3] == g[3] && f[4] == g[4] && f[5] == g[5];
    assert f[6] == g[6] && f[7] == g[7] && f[8] == g[8] && f[9] == g[9] && f[10] == g[10] && f[11] == g[11];
    assert f[12] == g[12] && f[13] == g[13] && f[15] == g[15] && f[16] == g[16] && f[17] == g[17];
  }

  /** Main result: the line of a recorded event is the line of no other, and starts no other. */
  lemma LineUnique(a: Entry, b: Entry, y: string)
    requires Recorded(a) && Recorded(b) && Line(a) == Line(b) + y
    ensures a == b && y == ""
  {
    hide Scalars, ObjectText, Recorded, SameShape;
    ScalarsShape(a, b);
    assert Line(a) + "" == Line(a);
    ObjectUnique(Scalars(a), Scalars(b), "", y);
    ScalarsFixEntry(a, b);
  }

  // ----- A codec the store can rely on

  function NoHash(e: Entry): string {
    ""
  }

  function TextOnly(v: Value): string {
    if v.Text? then v.s else ""
  }

  ghost predicate LineOf(s: string, e: Entry) {
    Recorded(e) && Line(e) == s
  }

  /** The event a line was written for. */
  ghost function Decoded(s: string): Parsed {
    if exists e :: LineOf(s, e) then
      var e :| LineOf(s, e);
      Object(e)
    else NotJson
  }

  lemma DecodesLine(e: Entry)
    requires Recorded(e)
    ensures Decoded(Line(e)) == Object(e)
  {
    hide Recorded, Line;
    assert LineOf(Line(e), e);
    var found := Decoded(Line(e)).entry;
    assert Line(found) == Line(e) + "";
    LineUnique(found, e, "");
  }

  lemma DecodesNoPrefix(e: Entry, n: nat)
    requires Recorded(e) && n < |Line(e)|
    ensures Decoded(Line(e)[..n]) == NotJson
  {
    hide Recorded, Line;
    if other :| LineOf(Line(e)[..n], other) {
      assert Line(e) == Line(other) + Line(e)[n..];
      LineUnique(e, other, Line(e)[n..]);
    }
  }

  /** The guarantees the review store asks of its hash, `str` and `json` functions can be met. */
  lemma TrustedCodecExists()
    ensures exists c :: Trusted(c)
  {
    hide Recorded, Line, Decoded;
    var c := Codec(NoHash, TextOnly, Decoded);
    forall e | Recorded(e) ensures c.load(Line(e)) == Object(e) { DecodesLine(e); }
    forall e, n: nat | Recorded(e) && n < |Line(e)| ensures c.load(Line(e)[..n]) == NotJson { DecodesNoPrefix(e, n); }
    assert Trusted(c);
  }
}
