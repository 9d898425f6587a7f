/** Files of one JSON object a line, written with `ensure_ascii=False` and read with `splitlines`. */
module JsonLines {
  import opened Wrappers
  import opened LogText

  /** `json.dumps` and `json.loads` of one kind of record. */
  datatype LineCodec<!R> = LineCodec(dump: R -> string, load: string -> Option<R>)

  /** These records load back when dumped, an object cut short does not load, and the only line breaks JSON
      leaves in them are the separators of their texts; `plain` says that a record has none. */
  ghost predicate Faithful<R>(c: LineCodec<R>, plain: R -> bool, records: seq<R>) {
    forall r | r in records :: Handles(c, plain, r)
  }

  ghost predicate Handles<R>(c: LineCodec<R>, plain: R -> bool, r: R) {
    && c.load(c.dump(r)) == Some(r)
    && (forall n: nat | n < |c.dump(r)| :: c.load(c.dump(r)[..n]) == None)
    && OnlySeparators(c.dump(r)) && (OneLine(c.dump(r)) <==> plain(r))
  }

  function Dumps<R>(c: LineCodec<R>, records: seq<R>): (lines: seq<string>)
    ensures |lines| == |records| && forall i :: 0 <= i < |records| ==> lines[i] == c.dump(records[i])
  {
    seq(|records|, i requires 0 <= i < |records| => c.dump(records[i]))
  }

  /** What every line of a file loads as. */
  function Loads<R>(c: LineCodec<R>, lines: seq<string>): (loaded: seq<Option<R>>)
    ensures |loaded| == |lines| && forall i :: 0 <= i < |lines| ==> loaded[i] == c.load(lines[i])
  {
    seq(|lines|, i requires 0 <= i < |lines| => c.load(lines[i]))
  }

  function Present<R>(records: seq<R>): (all: seq<Option<R>>)
    ensures |all| == |records| && forall i :: 0 <= i < |records| ==> all[i] == Some(records[i])
  {
    seq(|records|, i requires 0 <= i < |records| => Some(records[i]))
  }

  /** Lines without breaks come back whole. */
  lemma {:induction false} WholeLines(lines: seq<string>)
    requires forall i :: 0 <= i < |lines| ==> OneLine(lines[i])
    ensures SplitLines(Written(lines)) == lines
  {
    hide OneLine, SplitLines, Written;
    if lines == [] {
      EmptyFile();
    } else {
      WrittenFront(lines);
      WholeLines(lines[1..]);
      SplitWhole(lines[0], Written(lines[1..]));
    }
  }

  lemma EmptyFile()
    ensures SplitLines(Written([])) == []
  {}

  /** The first line with a separator comes back cut short, in its place. */
  lemma {:induction false} CutLines(lines: seq<string>) returns (k: nat)
    requires exists i :: 0 <= i < |lines| && !OneLine(lines[i])
    requires forall i :: 0 <= i < |lines| ==> OnlySeparators(lines[i])
    ensures k < |lines| && k < |SplitLines(Written(lines))|
    ensures SplitLines(Written(lines))[k] == lines[k][..LineEnd(lines[k])] && LineEnd(lines[k]) < |lines[k]|
  {
    hide SplitLines, Written, OneLine, OnlySeparators;
    WrittenFront(lines);
    if OneLine(lines[0]) {
      SplitWhole(lines[0], Written(lines[1..]));
      var j := CutLines(lines[1..]);
      k := j + 1;
    } else {
      BreakIsSeparator(lines[0]);
      SplitCut(lines[0], Written(lines[1..]));
      k := 0;
    }
  }

  lemma BreakIsSeparator(line: string)
    requires !OneLine(line) && OnlySeparators(line)
    ensures LineEnd(line) < |line| && line[LineEnd(line)] != '\r'
  {
    assert line == line[..|line|];
    assert Separator(line[LineEnd(line)]);
  }

  /** Main result: a file of records loads back in full exactly when no record holds U+0085, U+2028 or U+2029;
      otherwise some line does not load at all. */
  lemma LoadsBackExactly<R>(c: LineCodec<R>, plain: R -> bool, records: seq<R>)
    requires Faithful(c, plain, records)
    ensures var loaded := Loads(c, SplitLines(Written(Dumps(c, records))));
            if forall i :: 0 <= i < |records| ==> plain(records[i]) then loaded == Present(records)
            else exists k :: 0 <= k < |loaded| && loaded[k] == None
  {
    hide SplitLines, Written, OneLine, OnlySeparators;
    var lines := Dumps(c, records);
    assert forall i :: 0 <= i < |records| ==> records[i] in records && Handles(c, plain, records[i]);
    if forall i :: 0 <= i < |records| ==> plain(records[i]) {
      WholeLines(lines);
    } else {
      var i :| 0 <= i < |records| && !plain(records[i]);
      assert !OneLine(lines[i]);
      var k := CutLines(lines);
      assert c.load(c.dump(records[k])[..LineEnd(lines[k])]) == None;
      assert Loads(c, SplitLines(Written(lines)))[k] == None;
    }
  }
}
