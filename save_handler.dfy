/**
 * `SaveHandler`: the text format of a save file. `save` writes one
 * `key=value` line per map entry; `load` reads the lines back into a map.
 * Files, directories and save names are left out: `Save` returns the text it
 * would write and `Load` is given the text it would read.
 */
module SaveHandler {
  import opened Wrappers
  import opened JavaStrings
  import opened LinkedMaps

  /** The text of one entry, without its line terminator. */
  function EntryText(e: Entry): (t: string)
    ensures |t| == |e.0| + 1 + |e.1| && t[|e.0|] == '='
    ensures '=' !in e.0 && '=' !in e.1 && e.1 != [] ==> Split(t, '=') == [e.0, e.1]
  {
    var t := e.0 + "=" + e.1;
    assert t == e.0 + ['='] + e.1;
    if '=' !in e.0 && '=' !in e.1 && e.1 != [] then
      SplitPair(e.0, '=', e.1);
      t
    else t
  }

  /** The whole file `save` writes for a map: its entries' lines, in map order. */
  function Format(m: seq<Entry>): (r: string)
    ensures r == [] <==> m == []
    ensures m != [] ==> r[|r| - 1] == '\n'
  {
    if m == [] then "" else Format(m[..|m| - 1]) + EntryText(m[|m| - 1]) + "\n"
  }

  /** `save`: one `key=value\n` line per entry, in insertion order. */
  method Save(properties: seq<Entry>) returns (contents: string)
    ensures contents == Format(properties)
  {
    contents := "";
    var i := 0;
    while i < |properties|
      invariant 0 <= i <= |properties|
      invariant contents == Format(properties[..i])
    {
      var entry := properties[i];
      assert properties[..i + 1][..i] == properties[..i];
      contents := contents + entry.0 + "=" + entry.1 + "\n";
      i := i + 1;
    }
    assert properties[..i] == properties;
  }

  /** A line is kept only when it splits on '=' into exactly two fields; both are trimmed. */
  function ParseLine(line: string): (r: Option<Entry>)
    ensures r.None? <==> |Split(line, '=')| != 2
    ensures r.Some? ==> '=' !in r.value.0 && '=' !in r.value.1
    ensures r.Some? ==> && (r.value.0 == [] || (!IsTrimmable(r.value.0[0]) && !IsTrimmable(r.value.0[|r.value.0| - 1])))
                        && (r.value.1 == [] || (!IsTrimmable(r.value.1[0]) && !IsTrimmable(r.value.1[|r.value.1| - 1])))
  {
    var split := Split(line, '=');
    if |split| == 2 then
      TrimKeepsOut(split[0], '=');
      TrimKeepsOut(split[1], '=');
      Some((Trim(split[0]), Trim(split[1])))
    else None
  }

  /** Java's `split` drops the empty field after a trailing '=', so the line `a=b=` is kept as `a`, `b`. */
  lemma ParseTrailingSeparator()
    ensures ParseLine("a=b=") == Some(("a", "b"))
  {
    SplitTrailingSeparator("a", '=', "b");
    assert "a=b=" == "a" + ['='] + "b" + ['='];
  }

  /** The map `load` builds from the lines it reads: each kept line is a `put`. */
  function LoadLines(lines: seq<string>): (r: seq<Entry>)
    ensures UniqueKeys(r) && |r| <= |lines|
  {
    if lines == [] then []
    else
      var m := LoadLines(lines[..|lines| - 1]);
      match ParseLine(lines[|lines| - 1])
      case None => m
      case Some(e) =>
        PutKeeps(m, e.0, e.1);
        Put(m, e.0, e.1)
  }

  /**
   * `load`: `failsAt` is the number of the `readLine` call that throws, if
   * any (0 also stands for a file that cannot be opened). A failure gives
   * `None` (Java's `null`), never a partial map.
   */
  method Load(contents: string, failsAt: Option<nat>) returns (properties: Option<seq<Entry>>)
    ensures properties.None? <==> failsAt.Some? && failsAt.value <= |ReadLines(contents)|
    ensures properties.Some? ==> properties.value == LoadLines(ReadLines(contents))
  {
    var lines := ReadLines(contents);
    var map_ := [];
    var i := 0;
    while i < |lines|
      invariant 0 <= i <= |lines|
      invariant failsAt.None? || failsAt.value >= i
      invariant map_ == LoadLines(lines[..i])
    {
      if failsAt.Some? && failsAt.value == i {
        return None;
      }
      var split := Split(lines[i], '=');
      LoadLinesStep(lines, i);
      if |split| == 2 {
        map_ := Put(map_, Trim(split[0]), Trim(split[1]));
      }
      assert map_ == LoadLines(lines[..i + 1]);
      i := i + 1;
    }
    if failsAt.Some? && failsAt.value == i {
      return None;
    }
    assert lines[..i] == lines;
    properties := Some(map_);
  }

  /** Reading one more line: a kept line is one more `put`, any other changes nothing. */
  lemma LoadLinesStep(lines: seq<string>, i: nat)
    requires i < |lines|
    ensures LoadLines(lines[..i + 1])
         == match ParseLine(lines[i]) case None => LoadLines(lines[..i]) case Some(e) => Put(LoadLines(lines[..i]), e.0, e.1)
  {
    assert lines[..i + 1][..i] == lines[..i];
    assert lines[..i + 1][i] == lines[i];
  }

  // ---------------------------------------------------------------- load: later lines win

  /** The value of the last kept line whose trimmed key is `k`, read from the end. */
  function LastKept(lines: seq<string>, k: string): Option<string> {
    if lines == [] then None
    else
      match ParseLine(lines[|lines| - 1])
      case Some(e) => if e.0 == k then Some(e.1) else LastKept(lines[..|lines| - 1], k)
      case None => LastKept(lines[..|lines| - 1], k)
  }

  /** The loaded map holds, for each key, the value of the last line carrying it, and no other keys. */
  lemma {:induction false} LoadLinesGet(lines: seq<string>, k: string)
    ensures Get(LoadLines(lines), k) == LastKept(lines, k)
  {
    if lines != [] {
      var init := lines[..|lines| - 1];
      LoadLinesGet(init, k);
      match ParseLine(lines[|lines| - 1])
      case None =>
      case Some(e) => GetPut(LoadLines(init), e.0, e.1, k);
    }
  }

  /** A line that does not split into two fields changes nothing. */
  lemma DroppedLine(lines: seq<string>, line: string)
    requires |Split(line, '=')| != 2
    ensures LoadLines(lines + [line]) == LoadLines(lines)
  {
    assert (lines + [line])[..|lines|] == lines;
  }

  /** A line that splits into two fields is one more `put` of its trimmed fields. */
  lemma KeptLine(lines: seq<string>, line: string, e: Entry)
    requires ParseLine(line) == Some(e)
    ensures LoadLines(lines + [line]) == Put(LoadLines(lines), e.0, e.1)
  {
    assert (lines + [line])[..|lines|] == lines;
  }

  // ---------------------------------------------------------------- round trip

  /** Text that survives a save and a load unchanged. */
  predicate CleanText(s: string) {
    && '=' !in s
    && (forall c :: c in s ==> !IsLineBreak(c))
    && (s == [] || (!IsTrimmable(s[0]) && !IsTrimmable(s[|s| - 1])))
  }

  /** Maps whose keys and values contain no '=' or line break, carry no surrounding blanks, and whose values are not empty. */
  predicate Clean(m: seq<Entry>) {
    UniqueKeys(m) && forall i :: 0 <= i < |m| ==> CleanText(m[i].0) && CleanText(m[i].1) && m[i].1 != []
  }

  lemma {:induction false} FormatCons(e: Entry, m: seq<Entry>)
    ensures Format([e] + m) == EntryText(e) + "\n" + Format(m)
    decreases |m|
  {
    if m != [] {
      assert ([e] + m)[..|[e] + m| - 1] == [e] + m[..|m| - 1];
      FormatCons(e, m[..|m| - 1]);
    } else {
      assert ([e] + m)[..0] == [];
    }
  }

  function Texts(m: seq<Entry>): (r: seq<string>)
    ensures |r| == |m| && forall i :: 0 <= i < |m| ==> r[i] == EntryText(m[i])
  {
    seq(|m|, i requires 0 <= i < |m| => EntryText(m[i]))
  }

  lemma TextsCons(m: seq<Entry>)
    requires m != []
    ensures Texts(m) == [EntryText(m[0])] + Texts(m[1..])
  {
  }

  lemma FirstSplit(m: seq<Entry>)
    requires m != []
    ensures [m[0]] + m[1..] == m
  {
  }

  lemma TextsSnoc(m: seq<Entry>)
    requires m != []
    ensures Texts(m) == Texts(m[..|m| - 1]) + [EntryText(m[|m| - 1])]
  {
  }

  /** The line of an entry with clean key and value holds no line break. */
  lemma EntryTextOneLine(e: Entry)
    requires CleanText(e.0) && CleanText(e.1)
    ensures forall c :: c in EntryText(e) ==> !IsLineBreak(c)
  {
    assert EntryText(e) == e.0 + "=" + e.1;
  }

  lemma {:induction false} ReadFormat(m: seq<Entry>)
    requires forall i :: 0 <= i < |m| ==> CleanText(m[i].0) && CleanText(m[i].1)
    ensures ReadLines(Format(m)) == Texts(m)
    decreases |m|
  {
    if m != [] {
      var rest := m[1..];
      var line := EntryText(m[0]);
      FirstSplit(m);
      FormatCons(m[0], rest);
      ReadFormat(rest);
      EntryTextOneLine(m[0]);
      ReadLinesCons(line, Format(rest));
      TextsCons(m);
    }
  }

  lemma ParseEntryText(e: Entry)
    requires CleanText(e.0) && CleanText(e.1) && e.1 != []
    ensures ParseLine(EntryText(e)) == Some(e)
  {
    SplitPair(e.0, '=', e.1);
    assert EntryText(e) == e.0 + ['='] + e.1;
  }

  /** Loading what `save` wrote for a clean map gives that map back, entry for entry and in order. */
  lemma {:induction false} LoadSave(m: seq<Entry>)
    requires Clean(m)
    ensures LoadLines(ReadLines(Format(m))) == m
  {
    ReadFormat(m);
    LoadTexts(m);
  }

  /** Dropping the last entry of a clean map leaves a clean map without the dropped key. */
  lemma CleanInit(m: seq<Entry>)
    requires Clean(m) && m != []
    ensures Clean(m[..|m| - 1]) && !HasKey(m[..|m| - 1], m[|m| - 1].0)
  {
    var init := m[..|m| - 1];
    forall i | 0 <= i < |init| ensures init[i] == m[i] {
    }
  }

  lemma {:induction false} LoadTexts(m: seq<Entry>)
    requires Clean(m)
    ensures LoadLines(Texts(m)) == m
    decreases |m|
  {
    if m != [] {
      var n := |m| - 1;
      var init := m[..n];
      LastSplit(m);
      CleanInit(m);
      LoadTexts(init);
      LoadOneMore(init, m[n]);
    }
  }

  lemma LastSplit(m: seq<Entry>)
    requires m != []
    ensures m[..|m| - 1] + [m[|m| - 1]] == m
  {
  }

  /** The line of one more entry with a new key, clean key and non-empty clean value, loads as that entry appended. */
  lemma LoadOneMore(init: seq<Entry>, e: Entry)
    requires LoadLines(Texts(init)) == init && !HasKey(init, e.0)
    requires CleanText(e.0) && CleanText(e.1) && e.1 != []
    ensures LoadLines(Texts(init + [e])) == init + [e]
  {
    TextsSnoc(init + [e]);
    assert (init + [e])[..|init|] == init;
    ParseEntryText(e);
    KeptLine(Texts(init), EntryText(e), e);
  }

}
