/** The decision cache as text: when its file can be opened again. */
module CacheFile {
  import opened Wrappers
  import opened Semantic
  import opened CleaningRun
  import opened JsonLines
  import LogText

  predicate PlainLine(line: CacheLine) {
    && LogText.Plain(line.key.checksum) && LogText.Plain(line.key.textHash)
    && LogText.Plain(line.intent) && LogText.Plain(line.textZh) && LogText.Plain(line.reason)
  }

  /** Reopening the cache file, or nothing when a line does not parse and the load raises. */
  function Reopened(codec: LineCodec<CacheLine>, file: string): Option<map<CacheKey, Decision>> {
    var loaded := Loads(codec, LogText.SplitLines(file));
    if exists k :: 0 <= k < |loaded| && loaded[k] == None then None
    else Some(Load(seq(|loaded|, i requires 0 <= i < |loaded| && loaded[i].Some? => loaded[i].value)))
  }

  /** A cache file reopens exactly when no decision it holds contains U+0085, U+2028 or U+2029, and then it
      gives back every decision. */
  lemma CacheReopensExactly(codec: LineCodec<CacheLine>, lines: seq<CacheLine>)
    requires Faithful(codec, PlainLine, lines)
    ensures Reopened(codec, LogText.Written(Dumps(codec, lines)))
            == if forall i :: 0 <= i < |lines| ==> PlainLine(lines[i]) then Some(Load(lines)) else None
  {
    hide LogText.SplitLines, LogText.Written, PlainLine, Load;
    LoadsBackExactly(codec, PlainLine, lines);
    var loaded := Loads(codec, LogText.SplitLines(LogText.Written(Dumps(codec, lines))));
    if loaded == Present(lines) {
      assert seq(|loaded|, i requires 0 <= i < |loaded| && loaded[i].Some? => loaded[i].value) == lines;
    }
  }
}
