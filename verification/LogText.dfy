/** How one decision becomes a line of `events.jsonl`, and how the file is cut back into lines. */
module LogText {
  // ----- Characters, as Python classifies them

  /** A character at which `str.splitlines` ends a line. */
  predicate LineBreak(c: char) {
    var n := c as int;
    10 <= n <= 13 || 0x1C <= n <= 0x1E || n == 0x85 || n == 0x2028 || n == 0x2029
  }

  /** `str.lower` of one character, in ASCII. */
  function LowerChar(c: char): char {
    if 'A' <= c <= 'Z' then (c as int + 32) as char else c
  }

  function Lower(s: string): string {
    seq(|s|, i requires 0 <= i < |s| => LowerChar(s[i]))
  }

  /** The line breaks that `json.dumps(..., ensure_ascii=False)` leaves as they are. */
  predicate Separator(c: char) {
    var n := c as int;
    n == 0x85 || n == 0x2028 || n == 0x2029
  }

  predicate Whitespace(c: char) {
    var n := c as int;
    9 <= n <= 13 || 0x1C <= n <= 0x20 || n == 0x85 || n == 0xA0 || n == 0x1680 || 0x2000 <= n <= 0x200A
    || n == 0x2028 || n == 0x2029 || n == 0x202F || n == 0x205F || n == 0x3000
  }

  predicate Alphanumeric(c: char) {
    'a' <= c <= 'z' || 'A' <= c <= 'Z' || '0' <= c <= '9'
  }

  predicate OneLine(s: string) {
    forall i :: 0 <= i < |s| ==> !LineBreak(s[i])
  }

  predicate Plain(s: string) {
    forall i :: 0 <= i < |s| ==> !Separator(s[i])
  }

  function StripLeft(s: string): string {
    if s != "" && Whitespace(s[0]) then StripLeft(s[1..]) else s
  }

  function StripRight(s: string): string {
    if s != "" && Whitespace(s[|s| - 1]) then StripRight(s[..|s| - 1]) else s
  }

  /** `str.strip()`. */
  function Strip(s: string): string {
    StripRight(StripLeft(s))
  }

  // ----- Cutting text into lines

  /** Index of the first line break, or the length. */
  function LineEnd(s: string): (n: nat)
    ensures n <= |s| && OneLine(s[..n]) && (n < |s| ==> LineBreak(s[n]))
  {
    if s == "" || LineBreak(s[0]) then 0 else
      var m := LineEnd(s[1..]);
      assert s[..m + 1] == [s[0]] + s[1..][..m];
      m + 1
  }

  /** `str.splitlines()` on the decoded file; a CR LF pair ends one line. */
  function SplitLines(s: string): seq<string> {
    if s == "" then [] else
      var n := LineEnd(s);
      if n == |s| then [s]
      else if s[n] == '\r' && n + 1 < |s| && s[n + 1] == '\n' then [s[..n]] + SplitLines(s[n + 2..])
      else [s[..n]] + SplitLines(s[n + 1..])
  }

  /** What appending each line and a newline leaves in the file. */
  function Written(lines: seq<string>): string {
    if lines == [] then "" else Written(lines[..|lines| - 1]) + lines[|lines| - 1] + "\n"
  }

  lemma {:induction false} WrittenFront(lines: seq<string>)
    requires lines != []
    ensures Written(lines) == lines[0] + "\n" + Written(lines[1..])
  {
    var front := lines[..|lines| - 1];
    if front == [] {
      assert lines[1..] == [];
      assert Written(front) == "" && Written(lines[1..]) == "";
    } else {
      WrittenFront(front);
      assert front[1..] == lines[1..][..|lines[1..]| - 1];
      WrittenAssociates(lines[0] + "\n", Written(front[1..]), lines[|lines| - 1]);
    }
  }

  lemma WrittenAssociates(a: string, b: string, c: string)
    ensures (a + b) + c + "\n" == a + (b + c + "\n")
  {}

  lemma {:induction false} LineEndIs(s: string, n: nat)
    requires n <= |s| && OneLine(s[..n]) && (n < |s| ==> LineBreak(s[n]))
    ensures LineEnd(s) == n
  {
    if n > 0 {
      var front, rest := s[..n], s[1..][..n - 1];
      assert s[0] == front[0];
      forall i | 0 <= i < |rest| ensures !LineBreak(rest[i]) { assert front[i + 1] == rest[i]; }
      LineEndIs(s[1..], n - 1);
    }
  }

  /** A line without line breaks comes back whole. */
  lemma SplitWhole(line: string, rest: string)
    requires OneLine(line)
    ensures SplitLines(line + "\n" + rest) == [line] + SplitLines(rest)
  {
    var s := line + "\n" + rest;
    assert s[..|line|] == line && s[|line|] == '\n' && s[|line| + 1..] == rest;
    LineEndIs(s, |line|);
  }

  /** A line with a separator comes back cut at the first one. */
  lemma SplitCut(line: string, rest: string)
    requires !OneLine(line)
    requires line[LineEnd(line)] != '\r'
    ensures LineEnd(line) < |line|
    ensures SplitLines(line + "\n" + rest) != [] && SplitLines(line + "\n" + rest)[0] == line[..LineEnd(line)]
  {
    var s, n := line + "\n" + rest, LineEnd(line);
    assert line == line[..|line|];
    assert s[..n] == line[..n] && s[n] == line[n];
    LineEndIs(s, n);
  }

  // ----- JSON strings and numbers

  function HexDigit(n: nat): char
    requires n < 16
  {
    "0123456789abcdef"[n]
  }

  /** The characters `json.dumps` writes for one character of a string. */
  function Escape(c: char): string {
    if c == '"' then "\\\""
    else if c == '\\' then "\\\\"
    else if c == '\n' then "\\n"
    else if c == '\r' then "\\r"
    else if c == '\t' then "\\t"
    else if c as int == 8 then "\\b"
    else if c as int == 12 then "\\f"
    else if (c as int) < 0x20 then "\\u00" + [HexDigit(c as int / 16), HexDigit(c as int % 16)]
    else [c]
  }

  function EscapeAll(s: string): string {
    if s == "" then "" else EscapeAll(s[..|s| - 1]) + Escape(s[|s| - 1])
  }

  function Quoted(s: string): string {
    "\"" + EscapeAll(s) + "\""
  }

  function Decimal(n: nat): string {
    (if n < 10 then "" else Decimal(n / 10)) + ["0123456789"[n % 10]]
  }

  lemma EscapedBreaks(c: char)
    ensures OneLine(Escape(c)) <==> !Separator(c)
    ensures forall i :: 0 <= i < |Escape(c)| && LineBreak(Escape(c)[i]) ==> Separator(Escape(c)[i])
  {
    if 0x20 <= c as int && c != '"' && c != '\\' {
      assert Escape(c) == [c];
      assert OneLine(Escape(c)) <==> !LineBreak(Escape(c)[0]);
    } else if c as int < 0x20 {
      HexDigitOneLine(c as int / 16);
      HexDigitOneLine(c as int % 16);
    }
  }

  lemma HexDigitOneLine(n: nat)
    requires n < 16
    ensures !LineBreak(HexDigit(n))
  {}

  /** Every line break of a text is a separator that JSON left alone. */
  predicate OnlySeparators(s: string) {
    forall i :: 0 <= i < |s| && LineBreak(s[i]) ==> Separator(s[i])
  }

  lemma JoinLines(a: string, b: string)
    ensures OneLine(a + b) <==> OneLine(a) && OneLine(b)
    ensures OnlySeparators(a + b) <==> OnlySeparators(a) && OnlySeparators(b)
  {
    forall i | 0 <= i < |a| ensures (a + b)[i] == a[i] {}
    forall i | 0 <= i < |b| ensures (a + b)[|a| + i] == b[i] {}
  }

  lemma QuotedBreaks(s: string)
    ensures OneLine(Quoted(s)) <==> Plain(s)
    ensures OnlySeparators(Quoted(s))
  {
    EscapeAllBreaks(s);
    JoinLines("\"", EscapeAll(s));
    JoinLines("\"" + EscapeAll(s), "\"");
  }

  lemma {:induction false} EscapeAllBreaks(s: string)
    ensures OneLine(EscapeAll(s)) <==> Plain(s)
    ensures OnlySeparators(EscapeAll(s))
  {
    if s != "" {
      var front, c := s[..|s| - 1], s[|s| - 1];
      EscapeAllBreaks(front);
      EscapedBreaks(c);
      JoinLines(EscapeAll(front), Escape(c));
      assert s == front + [c];
      assert Plain(s) <==> Plain(front) && !Separator(c);
    }
  }

  lemma {:induction false} DecimalOneLine(n: nat)
    ensures OneLine(Decimal(n))
  {
    if n >= 10 {
      DecimalOneLine(n / 10);
      JoinLines(Decimal(n / 10), ["0123456789"[n % 10]]);
    }
  }

  // ----- One JSON object

  /** A value of a recorded event. */
  datatype Scalar = Number(n: nat) | Words(s: string)

  function ScalarText(v: Scalar): string {
    match v
    case Number(n) => Decimal(n)
    case Words(s) => Quoted(s)
  }

  predicate PlainScalar(v: Scalar) {
    v.Words? ==> Plain(v.s)
  }

  /** The keys of an event, in the order `sort_keys` writes them. */
  datatype Key =
    | AudioSha256 | Decision | EventHash | EventId | ItemId | Notes | OccurredAt | Origin | OriginalTranscript
    | PreviousEventHash | PreviousTranscript | RequestId | Reviewer | RunId | SchemaVersion | Sequence | SourceId
    | Transcript

  function KeyText(k: Key): string {
    match k
    case AudioSha256 => "audio_sha256"
    case Decision => "decision"
    case EventHash => "event_hash"
    case EventId => "event_id"
    case ItemId => "item_id"
    case Notes => "notes"
    case OccurredAt => "occurred_at"
    case Origin => "origin"
    case OriginalTranscript => "original_transcript"
    case PreviousEventHash => "previous_event_hash"
    case PreviousTranscript => "previous_transcript"
    case RequestId => "request_id"
    case Reviewer => "reviewer"
    case RunId => "run_id"
    case SchemaVersion => "schema_version"
    case Sequence => "sequence"
    case SourceId => "source_id"
    case Transcript => "transcript"
  }

  lemma KeysPlain0()
    ensures Plain(KeyText(AudioSha256)) && Plain(KeyText(Decision)) && Plain(KeyText(EventHash))
    ensures Plain(KeyText(EventId)) && Plain(KeyText(ItemId)) && Plain(KeyText(Notes))
  {}

  lemma KeysPlain1()
    ensures Plain(KeyText(OccurredAt)) && Plain(KeyText(Origin)) && Plain(KeyText(OriginalTranscript))
    ensures Plain(KeyText(PreviousEventHash)) && Plain(KeyText(PreviousTranscript)) && Plain(KeyText(RequestId))
  {}

  lemma KeysPlain2()
    ensures Plain(KeyText(Reviewer)) && Plain(KeyText(RunId)) && Plain(KeyText(SchemaVersion))
    ensures Plain(KeyText(Sequence)) && Plain(KeyText(SourceId)) && Plain(KeyText(Transcript))
  {}

  lemma KeyPlain(k: Key)
    ensures Plain(KeyText(k))
  {
    hide Plain, KeyText;
    KeysPlain0();
    KeysPlain1();
    KeysPlain2();
  }

  datatype Field = Field(key: Key, value: Scalar)

  function FieldsText(fields: seq<Field>): string {
    if fields == [] then "" else
      FieldsText(fields[..|fields| - 1]) + (if |fields| == 1 then "" else ",")
      + Quoted(KeyText(fields[|fields| - 1].key)) + ":" + ScalarText(fields[|fields| - 1].value)
  }

  /** `_canonical_json` of a flat object whose keys are listed in order. */
  function ObjectText(fields: seq<Field>): string {
    "{" + FieldsText(fields) + "}"
  }

  predicate PlainFields(fields: seq<Field>) {
    forall i :: 0 <= i < |fields| ==> PlainScalar(fields[i].value)
  }

  lemma {:induction false} FieldsBreaks(fields: seq<Field>)
    ensures OneLine(FieldsText(fields)) <==> PlainFields(fields)
    ensures OnlySeparators(FieldsText(fields))
  {
    hide OneLine, OnlySeparators, Quoted, ScalarText, Plain, KeyText;
    if fields != [] {
      var front, last := fields[..|fields| - 1], fields[|fields| - 1];
      FieldsBreaks(front);
      assert fields == front + [last];
      assert PlainFields(fields) <==> PlainFields(front) && PlainScalar(last.value);
      var comma := if |fields| == 1 then "" else ",";
      KeyPlain(last.key);
      QuotedBreaks(KeyText(last.key));
      ScalarBreaks(last.value);
      PunctuationOneLine();
      JoinLines(FieldsText(front), comma);
      JoinLines(FieldsText(front) + comma, Quoted(KeyText(last.key)));
      JoinLines(FieldsText(front) + comma + Quoted(KeyText(last.key)), ":");
      JoinLines(FieldsText(front) + comma + Quoted(KeyText(last.key)) + ":", ScalarText(last.value));
    } else {
      PunctuationOneLine();
    }
  }

  lemma PunctuationOneLine()
    ensures OneLine("") && OneLine(",") && OneLine(":") && OneLine("{") && OneLine("}")
    ensures OnlySeparators("") && OnlySeparators(",") && OnlySeparators(":") && OnlySeparators("{")
            && OnlySeparators("}")
  {}

  lemma ScalarBreaks(v: Scalar)
    ensures OneLine(ScalarText(v)) <==> PlainScalar(v)
    ensures OnlySeparators(ScalarText(v))
  {
    match v
    case Number(n) => DecimalOneLine(n);
    case Words(s) => QuotedBreaks(s);
  }

  /** An object stays on one line exactly when none of its texts holds NEL, LS or PS. */
  lemma ObjectBreaks(fields: seq<Field>)
    ensures OneLine(ObjectText(fields)) <==> PlainFields(fields)
    ensures OnlySeparators(ObjectText(fields))
  {
    hide OneLine, OnlySeparators;
    FieldsBreaks(fields);
    PunctuationOneLine();
    JoinLines("{", FieldsText(fields));
    JoinLines("{" + FieldsText(fields), "}");
  }

  // ----- Stripping

  lemma {:induction false} StripLeftStarts(s: string)
    ensures StripLeft(s) == "" || !Whitespace(StripLeft(s)[0])
  {
    if s != "" && Whitespace(s[0]) { StripLeftStarts(s[1..]); }
  }

  lemma {:induction false} StripRightEnds(s: string)
    ensures StripRight(s) <= s
    ensures StripRight(s) == "" || !Whitespace(StripRight(s)[|StripRight(s)| - 1])
  {
    if s != "" && Whitespace(s[|s| - 1]) { StripRightEnds(s[..|s| - 1]); }
  }

  /** Stripping a stripped text changes nothing. */
  lemma StripTwice(s: string)
    ensures Strip(Strip(s)) == Strip(s)
  {
    StripLeftStarts(s);
    StripRightEnds(StripLeft(s));
  }

  lemma {:induction false} StripLeftShortens(s: string)
    ensures |StripLeft(s)| <= |s|
  {
    if s != "" && Whitespace(s[0]) { StripLeftShortens(s[1..]); }
  }

  lemma StripShortens(s: string)
    ensures |Strip(s)| <= |s|
  {
    StripLeftShortens(s);
    StripRightEnds(StripLeft(s));
  }
}
