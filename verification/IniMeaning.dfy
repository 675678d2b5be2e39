/** What loading a text means: values, keys and sections as the lines name them, read off the lines alone. */
module IniMeaning {
  import opened Options
  import opened Text
  import opened IniStore
  import opened IniRoundTrip

  // ------------------------------------------------------------------ reading the lines

  /** The section that the last header opened, or the global one. */
  function Current(lines: seq<Line>): string {
    if lines == [] then ""
    else
      var last := lines[|lines| - 1];
      if last.Header? then last.name else Current(lines[..|lines| - 1])
  }

  /** The names of the headers, in order. */
  function Headers(lines: seq<Line>): seq<string> {
    if lines == [] then []
    else
      var init, last := lines[..|lines| - 1], lines[|lines| - 1];
      if last.Header? then Headers(init) + [last.name] else Headers(init)
  }

  /** The keys and values of the entries under headers of this name, in order. */
  function Entries(lines: seq<Line>, section: string): seq<(string, string)> {
    if lines == [] then []
    else
      var init, last := lines[..|lines| - 1], lines[|lines| - 1];
      if last.Entry? && Current(init) == section then Entries(init, section) + [(last.key, last.value)]
      else Entries(init, section)
  }

  /** What one more line adds. */
  lemma OneMoreLine(lines: seq<Line>, x: Line)
    ensures Current(lines + [x]) == if x.Header? then x.name else Current(lines)
    ensures Headers(lines + [x]) == if x.Header? then Headers(lines) + [x.name] else Headers(lines)
    ensures forall s :: Entries(lines + [x], s) ==
              if x.Entry? && Current(lines) == s then Entries(lines, s) + [(x.key, x.value)] else Entries(lines, s)
  {
    assert (lines + [x])[..|lines|] == lines;
  }

  /** A repeated key has its last value. */
  function LastValues(entries: seq<(string, string)>): map<string, string> {
    if entries == [] then map[]
    else
      var last := entries[|entries| - 1];
      LastValues(entries[..|entries| - 1])[last.0 := last.1]
  }

  /** Each name once, in the order of their first occurrences. */
  function Firsts(names: seq<string>): seq<string> {
    if names == [] then []
    else
      var init, last := names[..|names| - 1], names[|names| - 1];
      if last in init then Firsts(init) else Firsts(init) + [last]
  }

  function Names(entries: seq<(string, string)>): seq<string> {
    seq(|entries|, i requires 0 <= i < |entries| => entries[i].0)
  }

  lemma {:induction false} FirstsHoldAll(names: seq<string>)
    ensures forall x :: x in Firsts(names) <==> x in names
  {
    if names != [] {
      FirstsHoldAll(names[..|names| - 1]);
      assert names == names[..|names| - 1] + [names[|names| - 1]];
    }
  }

  lemma {:induction false} LastValuesHoldAll(entries: seq<(string, string)>)
    ensures forall k :: k in LastValues(entries) <==> k in Names(entries)
  {
    if entries != [] {
      var init, last := entries[..|entries| - 1], entries[|entries| - 1];
      LastValuesHoldAll(init);
      assert Names(entries) == Names(init) + [last.0];
    }
  }

  // ------------------------------------------------------------------ the store that they mean

  ghost predicate SectionMeans(section: Section, entries: seq<(string, string)>) {
    section.values == LastValues(entries) && section.order == Firsts(Names(entries))
  }

  /** The sections that the headers name, and the global one if it has entries. */
  ghost predicate SectionsMean(store: Store, headers: seq<string>, global: bool) {
    && store.order == Firsts(headers) && "" !in headers
    && (forall s :: s in store.data <==> s in headers || (s == "" && global))
  }

  /** The loading state says what the lines so far say. */
  ghost predicate Means(l: Loading, lines: seq<Line>) {
    && l.current == Current(lines) && (l.current == "" || l.current in Headers(lines))
    && SectionsMean(l.store, Headers(lines), Entries(lines, "") != [])
    && (forall s :: SectionMeans(Lookup(l.store, s), Entries(lines, s)))
  }

  lemma FirstsOneMore(names: seq<string>, x: string)
    ensures Firsts(names + [x]) == if x in Firsts(names) then Firsts(names) else Firsts(names) + [x]
  {
    assert (names + [x])[..|names|] == names;
    FirstsHoldAll(names);
  }

  lemma LastValuesOneMore(entries: seq<(string, string)>, e: (string, string))
    ensures LastValues(entries + [e]) == LastValues(entries)[e.0 := e.1]
    ensures Names(entries + [e]) == Names(entries) + [e.0]
  {
    assert (entries + [e])[..|entries|] == entries;
  }

  lemma SameKeys(entries: seq<(string, string)>, key: string)
    ensures key in LastValues(entries) <==> key in Firsts(Names(entries))
  {
    LastValuesHoldAll(entries);
    FirstsHoldAll(Names(entries));
  }

  lemma EntryAdds(section: Section, entries: seq<(string, string)>, key: string, value: string)
    requires SectionMeans(section, entries)
    ensures SectionMeans(SetEntry(section, key, value, key in section.values), entries + [(key, value)])
  {
    LastValuesOneMore(entries, (key, value));
    FirstsOneMore(Names(entries), key);
    SameKeys(entries, key);
  }

  lemma HeaderOpens(store: Store, headers: seq<string>, global: bool, name: string)
    requires SectionsMean(store, headers, global) && name != ""
    ensures SectionsMean(OpenSection(Loading(store, ""), name).store, headers + [name], global)
  {
    FirstsOneMore(headers, name);
    FirstsHoldAll(headers);
  }

  lemma HeaderSection(l: Loading, lines: seq<Line>, name: string, s: string)
    requires SectionMeans(Lookup(l.store, s), Entries(lines, s))
    ensures SectionMeans(Lookup(OpenSection(l, name).store, s), Entries(lines + [Header(name)], s))
  {
    OneMoreLine(lines, Header(name));
  }

  lemma HeaderMeans(l: Loading, lines: seq<Line>, name: string)
    requires Means(l, lines) && name != ""
    ensures Means(OpenSection(l, name), lines + [Header(name)])
  {
    forall s
      ensures SectionMeans(Lookup(OpenSection(l, name).store, s), Entries(lines + [Header(name)], s))
    {
      HeaderSection(l, lines, name, s);
    }
    OneMoreLine(lines, Header(name));
    HeaderOpens(l.store, Headers(lines), Entries(lines, "") != [], name);
  }

  lemma EntryPuts(store: Store, headers: seq<string>, global: bool, name: string, section: Section)
    requires SectionsMean(store, headers, global) && (name == "" || name in headers)
    ensures SectionsMean(PutSection(store, name, section), headers, global || name == "")
  {
    FirstsHoldAll(headers);
  }

  lemma EntrySection(l: Loading, lines: seq<Line>, key: string, value: string, s: string)
    requires l.current == Current(lines) && SectionMeans(Lookup(l.store, s), Entries(lines, s))
    ensures SectionMeans(Lookup(PutEntry(l, key, value).store, s), Entries(lines + [Entry(key, value)], s))
  {
    OneMoreLine(lines, Entry(key, value));
    if s == l.current { EntryAdds(Lookup(l.store, s), Entries(lines, s), key, value); }
  }

  lemma EntryMeans(l: Loading, lines: seq<Line>, key: string, value: string)
    requires Means(l, lines)
    ensures Means(PutEntry(l, key, value), lines + [Entry(key, value)])
  {
    var was := Lookup(l.store, l.current);
    forall s
      ensures SectionMeans(Lookup(PutEntry(l, key, value).store, s), Entries(lines + [Entry(key, value)], s))
    {
      EntrySection(l, lines, key, value, s);
    }
    OneMoreLine(lines, Entry(key, value));
    var now := SetEntry(was, key, value, key in was.values);
    EntryPuts(l.store, Headers(lines), Entries(lines, "") != [], l.current, now);
  }

  lemma BlankMeans(l: Loading, lines: seq<Line>)
    requires Means(l, lines)
    ensures Means(l, lines + [Blank])
  {
    OneMoreLine(lines, Blank);
  }

  // ------------------------------------------------------------------ whole texts

  /** The number of the first bad line, or the number of lines. */
  function FirstBad(lines: seq<Line>): (i: nat)
    ensures i <= |lines| && (forall k :: 0 <= k < i ==> !lines[k].Bad?) && (i < |lines| ==> lines[i].Bad?)
  {
    if lines == [] || lines[0].Bad? then 0 else 1 + FirstBad(lines[1..])
  }

  function LinesOf(classify: string -> Line, raws: seq<string>): seq<Line> {
    seq(|raws|, i requires 0 <= i < |raws| => classify(raws[i]))
  }

  /** Loading a line does what the line says, or reports it. */
  ghost predicate StepMeans(step: LineStep, classify: string -> Line) {
    forall l: Loading, before: seq<Line>, raw: string, number: nat ::
      OneStepMeans(step, classify, l, before, raw, number)
  }

  ghost predicate OneStepMeans(step: LineStep, classify: string -> Line, l: Loading, before: seq<Line>, raw: string,
                               number: nat)
  {
    Means(l, before) ==>
      if classify(raw).Bad? then step(l, raw, number) == Err(classify(raw).problem, number)
      else step(l, raw, number).Ok? && Means(step(l, raw, number).value, before + [classify(raw)])
  }

  lemma FirstLineOf(classify: string -> Line, raws: seq<string>, before: seq<Line>)
    requires raws != []
    ensures LinesOf(classify, raws)[0] == classify(raws[0])
    ensures LinesOf(classify, raws)[1..] == LinesOf(classify, raws[1..])
    ensures before + [classify(raws[0])] + LinesOf(classify, raws[1..]) == before + LinesOf(classify, raws)
  {
  }

  lemma {:induction false} LinesMean(step: LineStep, classify: string -> Line, l: Loading, before: seq<Line>,
                                     raws: seq<string>, number: nat)
    requires StepMeans(step, classify) && Means(l, before)
    ensures var lines := LinesOf(classify, raws); var bad := FirstBad(lines);
      var result := LoadLines(step, l, raws, number);
      if bad < |lines| then result == Err(lines[bad].problem, number + bad)
      else result.Ok? && Means(result.value, before + lines)
    decreases |raws|
  {
    if raws == [] {
      assert before + LinesOf(classify, raws) == before;
    } else {
      FirstLineOf(classify, raws, before);
      var next := step(l, raws[0], number);
      assert OneStepMeans(step, classify, l, before, raws[0], number);
      if !classify(raws[0]).Bad? {
        LinesMean(step, classify, next.value, before + [classify(raws[0])], raws[1..], number + 1);
      }
    }
  }

  /** The line that a piece of the text is. */
  function LineOf(raw: string): Line { Classify(Trim(DropReturn(raw))) }

  lemma TrimmedMeans(l: Loading, lines: seq<Line>, line: string, number: nat)
    requires Means(l, lines) && !Classify(line).Bad?
    ensures LoadTrimmed(l, line, number).Ok? && Means(LoadTrimmed(l, line, number).value, lines + [Classify(line)])
  {
    match Classify(line)
    case Blank => BlankMeans(l, lines);
    case Header(name) => HeaderMeans(l, lines, name);
    case Entry(key, value) => EntryMeans(l, lines, key, value);
  }

  lemma LoadLineMeansOne(l: Loading, before: seq<Line>, raw: string, number: nat)
    ensures OneStepMeans(LoadLine, LineOf, l, before, raw, number)
  {
    if Means(l, before) && !LineOf(raw).Bad? { TrimmedMeans(l, before, Trim(DropReturn(raw)), number); }
  }

  lemma LoadLineMeans()
    ensures StepMeans(LoadLine, LineOf)
  {
    forall l: Loading, before: seq<Line>, raw: string, number: nat
      ensures OneStepMeans(LoadLine, LineOf, l, before, raw, number)
    {
      LoadLineMeansOne(l, before, raw, number);
    }
  }

  /** The store is the one that the lines describe. */
  ghost predicate Describes(lines: seq<Line>, store: Store) {
    && store.order == Firsts(Headers(lines))
    && (forall s :: s in store.data <==> s in Headers(lines) || (s == "" && Entries(lines, "") != []))
    && (forall s :: ValuesOf(store, s) == LastValues(Entries(lines, s)))
    && (forall s :: KeysOf(store, s) == Firsts(Names(Entries(lines, s))))
  }

  lemma MeaningDescribes(l: Loading, lines: seq<Line>)
    requires Means(l, lines)
    ensures Describes(lines, l.store)
  {
    forall s
      ensures ValuesOf(l.store, s) == LastValues(Entries(lines, s))
      ensures KeysOf(l.store, s) == Firsts(Names(Entries(lines, s)))
    {
      assert SectionMeans(Lookup(l.store, s), Entries(lines, s));
    }
  }

  /**
   Loading fails exactly if some line is bad, and reports the first such line. Otherwise the store
   holds what the lines say: every section that a header names, in the order of first headers; in it
   every key entered under any of its headers, in the order of first entries, with its last value;
   and the keys before the first header as global ones.
   */
  lemma LoadMeansLines(content: string)
    ensures var lines := LinesOf(LineOf, Pieces(content, '\n')); var bad := FirstBad(lines);
      if bad < |lines| then Load(content) == Err(lines[bad].problem, bad + 1)
      else Load(content).Ok? && Describes(lines, Load(content).value)
  {
    var raws := Pieces(content, '\n');
    var l := Loading(EMPTY_STORE, "");
    NothingMeans();
    LoadLineMeans();
    LinesMean(LoadLine, LineOf, l, [], raws, 1);
    assert [] + LinesOf(LineOf, raws) == LinesOf(LineOf, raws);
    if LoadLines(LoadLine, l, raws, 1).Ok? {
      MeaningDescribes(LoadLines(LoadLine, l, raws, 1).value, LinesOf(LineOf, raws));
    }
  }

  lemma NothingMeans()
    ensures Means(Loading(EMPTY_STORE, ""), [])
  {
  }

  // ------------------------------------------------------------------ the forms of a line

  /** What is left of a line is what stands between its white space. */
  ghost predicate Visible(raw: string, a: nat, b: nat) {
    && a < b <= |raw| && !IsSpace(raw[a]) && !IsSpace(raw[b - 1])
    && forall k :: 0 <= k < a || b <= k < |raw| ==> IsSpace(raw[k])
  }

  lemma VisibleIsTrimmed(raw: string, a: nat, b: nat)
    requires Visible(raw, a, b)
    ensures Trim(DropReturn(raw)) == raw[a..b]
  {
    var t := DropReturn(raw);
    assert forall k :: 0 <= k < |t| ==> t[k] == raw[k];
    TrimPadded(t, a, b);
  }

  lemma NothingVisible(raw: string)
    requires forall k :: 0 <= k < |raw| ==> IsSpace(raw[k])
    ensures LineOf(raw) == Blank
  {
    var x, y := TrimCuts(DropReturn(raw));
  }

  /** Comments are ignored; a header must be closed and must name something; any other line needs a key before `=`. */
  lemma LineForms(raw: string, a: nat, b: nat)
    requires Visible(raw, a, b)
    ensures raw[a] == ';' || raw[a] == '#' ==> LineOf(raw) == Blank
    ensures raw[a] == '[' && raw[b - 1] != ']' ==> LineOf(raw) == Bad(BadHeader)
    ensures raw[a] != ';' && raw[a] != '#' && raw[a] != '[' && '=' !in raw[a..b] ==> LineOf(raw) == Bad(BadEntry)
    ensures raw[a] == '=' ==> LineOf(raw) == Bad(EmptyKey)
  {
    VisibleIsTrimmed(raw, a, b);
    if raw[a] == '=' {
      assert Find(raw[a..b], '=') == 0 && raw[a..b][..0] == "";
    }
  }

  lemma InnerTrimmed(raw: string, i: nat, j: nat, x: nat, y: nat)
    requires i <= x < y <= j <= |raw| && !IsSpace(raw[x]) && !IsSpace(raw[y - 1])
    requires forall k :: i <= k < x || y <= k < j ==> IsSpace(raw[k])
    ensures Trim(raw[i..j]) == raw[x..y]
  {
    var inner := raw[i..j];
    assert forall k :: 0 <= k < |inner| ==> inner[k] == raw[i + k];
    TrimPadded(inner, x - i, y - i);
    assert inner[x - i..y - i] == raw[x..y];
  }

  lemma BracketsTrimmed(line: string)
    requires |line| > 1 && line[0] == '[' && line[|line| - 1] == ']' && Trim(line[1..|line| - 1]) != ""
    ensures Classify(line) == Header(Trim(line[1..|line| - 1]))
  {
  }

  lemma WithoutBrackets(raw: string, a: nat, b: nat)
    requires a + 2 <= b <= |raw|
    ensures raw[a..b][1..b - a - 1] == raw[a + 1..b - 1]
  {
    var line := raw[a..b];
    assert forall k :: 0 <= k < |line| ==> line[k] == raw[a + k];
    var inner := line[1..b - a - 1];
    assert |inner| == b - a - 2;
    assert forall k :: 0 <= k < |inner| ==> inner[k] == line[k + 1];
  }

  lemma HeaderForm(raw: string, a: nat, b: nat, x: nat, y: nat)
    requires Visible(raw, a, b) && raw[a] == '[' && raw[b - 1] == ']' && a < x < y < b
    requires !IsSpace(raw[x]) && !IsSpace(raw[y - 1])
    requires forall k :: a < k < x || y <= k < b - 1 ==> IsSpace(raw[k])
    ensures LineOf(raw) == Header(raw[x..y])
  {
    VisibleIsTrimmed(raw, a, b);
    InnerTrimmed(raw, a + 1, b - 1, x, y);
    WithoutBrackets(raw, a, b);
    BracketsTrimmed(raw[a..b]);
  }

  lemma EmptyHeaderForm(raw: string, a: nat, b: nat)
    requires Visible(raw, a, b) && a + 2 <= b && raw[a] == '[' && raw[b - 1] == ']'
    requires forall k :: a < k < b - 1 ==> IsSpace(raw[k])
    ensures LineOf(raw) == Bad(EmptySection)
  {
    VisibleIsTrimmed(raw, a, b);
    WithoutBrackets(raw, a, b);
    NothingTrimmed(raw[a + 1..b - 1]);
    BracketsEmpty(raw[a..b]);
  }

  lemma BracketsEmpty(line: string)
    requires |line| > 1 && line[0] == '[' && line[|line| - 1] == ']' && Trim(line[1..|line| - 1]) == ""
    ensures Classify(line) == Bad(EmptySection)
  {
  }

  /** A `;` or `#` at `k` that stands first after the equals sign at `eq`, or after white space. */
  predicate CommentAt(raw: string, eq: int, k: int)
    requires 0 <= eq < k < |raw|
  {
    (raw[k] == ';' || raw[k] == '#') && (k == eq + 1 || IsSpace(raw[k - 1]))
  }

  /** The value ends before the first such mark, or where the line ends. */
  predicate ValueEnds(raw: string, eq: nat, n: nat, b: nat) {
    && eq < n <= b <= |raw|
    && (n < b ==> CommentAt(raw, eq, n))
    && forall k :: eq < k < n ==> !CommentAt(raw, eq, k)
  }

  lemma SameMark(raw: string, eq: nat, b: nat, k: nat)
    requires eq < b <= |raw| && k < b - eq - 1
    ensures StartsComment(raw[eq + 1..b], k) <==> CommentAt(raw, eq, eq + 1 + k)
  {
    var v := raw[eq + 1..b];
    assert v[k] == raw[eq + 1 + k] && (k > 0 ==> v[k - 1] == raw[eq + k]);
  }

  lemma CommentIsCut(raw: string, eq: nat, n: nat, b: nat)
    requires ValueEnds(raw, eq, n, b)
    ensures StripComment(raw[eq + 1..b]) == Trim(raw[eq + 1..n])
  {
    var v, m := raw[eq + 1..b], n - eq - 1;
    var at := CommentFrom(v, 0);
    if at < |v| { SameMark(raw, eq, b, at); }
    if m < |v| { SameMark(raw, eq, b, m); }
    assert at == m;
    assert v[..m] == raw[eq + 1..n];
  }

  lemma ClassifiesEntry(line: string, eq: nat, k: string, v: string)
    requires line != "" && !IsMark(line[0]) && line[0] != '[' && k != ""
    requires eq == Find(line, '=') < |line| && Trim(line[..eq]) == k && StripComment(line[eq + 1..]) == v
    ensures Classify(line) == Entry(k, v)
  {
  }

  lemma EqualsAt(raw: string, a: nat, b: nat, eq: nat)
    requires a <= eq < b <= |raw| && raw[eq] == '=' && forall k :: a <= k < eq ==> raw[k] != '='
    ensures var line := raw[a..b];
      Find(line, '=') == eq - a && line[..eq - a] == raw[a..eq] && line[eq - a + 1..] == raw[eq + 1..b]
  {
    var line := raw[a..b];
    assert forall k :: 0 <= k < |line| ==> line[k] == raw[a + k];
  }

  /**
   Any line with a key: the key is what stands before the first equals sign, the value what stands
   between it and the first mark after white space, both without the white space around them.
   */
  lemma EntryForm(raw: string, a: nat, b: nat, key: nat, eq: nat, x: nat, y: nat, n: nat)
    requires Visible(raw, a, b) && raw[a] != ';' && raw[a] != '#' && raw[a] != '['
    requires a < key <= eq < b && !IsSpace(raw[key - 1]) && raw[eq] == '='
    requires forall k :: key <= k < eq ==> IsSpace(raw[k])
    requires forall k :: a <= k < eq ==> raw[k] != '='
    requires ValueEnds(raw, eq, n, b) && eq < x <= y <= n
    requires x < y ==> !IsSpace(raw[x]) && !IsSpace(raw[y - 1])
    requires forall k :: eq < k < x || y <= k < n ==> IsSpace(raw[k])
    ensures LineOf(raw) == Entry(raw[a..key], raw[x..y])
  {
    VisibleIsTrimmed(raw, a, b);
    EqualsAt(raw, a, b, eq);
    InnerTrimmed(raw, a, eq, a, key);
    ValueForm(raw, eq, b, x, y, n);
    ClassifiesEntry(raw[a..b], eq - a, raw[a..key], raw[x..y]);
  }

  lemma ValueForm(raw: string, eq: nat, b: nat, x: nat, y: nat, n: nat)
    requires ValueEnds(raw, eq, n, b) && eq < x <= y <= n
    requires x < y ==> !IsSpace(raw[x]) && !IsSpace(raw[y - 1])
    requires forall k :: eq < k < x || y <= k < n ==> IsSpace(raw[k])
    ensures StripComment(raw[eq + 1..b]) == raw[x..y]
  {
    CommentIsCut(raw, eq, n, b);
    if x < y {
      InnerTrimmed(raw, eq + 1, n, x, y);
    } else {
      NothingTrimmed(raw[eq + 1..n]);
    }
  }

  lemma NothingTrimmed(s: string)
    requires forall k :: 0 <= k < |s| ==> IsSpace(s[k])
    ensures Trim(s) == ""
  {
    var x, y := TrimCuts(s);
  }
}
