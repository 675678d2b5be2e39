/**
 The INI store: what loading a text, printing a store and editing it do, and the class that does it
 in place.
 */
module IniStore {
  import opened Text

  datatype Section = Section(values: map<string, string>, order: seq<string>)

  datatype Store = Store(data: map<string, Section>, order: seq<string>)

  const EMPTY_SECTION := Section(map[], [])
  const EMPTY_STORE := Store(map[], [])

  datatype Problem = BadHeader | EmptySection | BadEntry | EmptyKey

  datatype Result<+T> = Ok(value: T) | Err(problem: Problem, line: nat)

  // ------------------------------------------------------------------ lines

  function Trim(s: string): string {
    SkipSpacesBack(SkipSpaces(s))
  }

  predicate IsMark(c: char) {
    c == ';' || c == '#'
  }

  /** An inline comment starts at `i`: a mark at the front or after white space. */
  predicate StartsComment(s: string, i: nat)
    requires i < |s|
  {
    IsMark(s[i]) && (i == 0 || IsSpace(s[i - 1]))
  }

  /** The first inline comment at or after `i`, or the length when there is none. */
  function CommentFrom(s: string, i: nat): (n: nat)
    requires i <= |s|
    ensures i <= n <= |s|
    ensures forall k :: i <= k < n ==> !StartsComment(s, k)
    ensures n < |s| ==> StartsComment(s, n)
    decreases |s| - i
  {
    if i == |s| || StartsComment(s, i) then i else CommentFrom(s, i + 1)
  }

  function StripComment(s: string): string {
    Trim(s[..CommentFrom(s, 0)])
  }

  function DropReturn(line: string): string {
    if line != "" && line[|line| - 1] == '\r' then line[..|line| - 1] else line
  }

  // ------------------------------------------------------------------ loading

  /** What `loadFromString` has parsed so far, and the section it is in. */
  datatype Loading = Loading(store: Store, current: string)

  /** Appends to an order vector what it does not hold yet. */
  function Track(order: seq<string>, name: string): seq<string> {
    if name in order then order else order + [name]
  }

  /** Sets a key; `known` tells whether the order vector has it already. */
  function SetEntry(section: Section, key: string, value: string, known: bool): Section {
    Section(section.values[key := value], if known then section.order else section.order + [key])
  }

  function Lookup(store: Store, section: string): Section {
    if section in store.data then store.data[section] else EMPTY_SECTION
  }

  function OpenSection(l: Loading, name: string): Loading {
    if name in l.store.data then l.(current := name)
    else Loading(Store(l.store.data[name := EMPTY_SECTION], l.store.order + [name]), name)
  }

  function PutSection(store: Store, name: string, section: Section): Store {
    Store(store.data[name := section], if name == "" then store.order else Track(store.order, name))
  }

  /** A key/value line: the key is new if the section's map does not have it. */
  function PutEntry(l: Loading, key: string, value: string): Loading {
    var section := Lookup(l.store, l.current);
    l.(store := PutSection(l.store, l.current, SetEntry(section, key, value, key in section.values)))
  }

  /** What a line of the text says. */
  datatype Line = Blank | Header(name: string) | Entry(key: string, value: string) | Bad(problem: Problem)

  /** A trimmed line. */
  function Classify(line: string): Line {
    if line == "" || IsMark(line[0]) then Blank
    else if line[0] == '[' then
      if line[|line| - 1] != ']' then Bad(BadHeader)
      else
        var name := Trim(line[1..|line| - 1]);
        if name == "" then Bad(EmptySection) else Header(name)
    else
      var eq := Find(line, '=');
      if eq == |line| then Bad(BadEntry) else KeyAndValue(Trim(line[..eq]), StripComment(line[eq + 1..]))
  }

  function KeyAndValue(key: string, value: string): Line {
    if key == "" then Bad(EmptyKey) else Entry(key, value)
  }

  function LoadTrimmed(l: Loading, line: string, number: nat): Result<Loading> {
    match Classify(line)
    case Blank => Ok(l)
    case Header(name) => Ok(OpenSection(l, name))
    case Entry(key, value) => Ok(PutEntry(l, key, value))
    case Bad(problem) => Err(problem, number)
  }

  function LoadLine(l: Loading, raw: string, number: nat): Result<Loading> {
    LoadTrimmed(l, Trim(DropReturn(raw)), number)
  }

  /** The loop over the lines, for any way to load one line. */
  function LoadLines(step: (Loading, string, nat) -> Result<Loading>, l: Loading, lines: seq<string>, number: nat)
    : Result<Loading>
    decreases |lines|
  {
    if lines == [] then Ok(l)
    else match step(l, lines[0], number)
         case Err(p, n) => Err(p, n)
         case Ok(m) => LoadLines(step, m, lines[1..], number + 1)
  }

  /** `loadFromString`: the store it installs, or the error it reports. */
  function Load(content: string): Result<Store> {
    match LoadLines(LoadLine, Loading(EMPTY_STORE, ""), Pieces(content, '\n'), 1)
    case Ok(l) => Ok(l.store)
    case Err(p, n) => Err(p, n)
  }

  // ------------------------------------------------------------------ printing

  function EntryLine(key: string, value: string): string {
    key + " = " + value
  }

  function HeaderLine(name: string): string {
    "[" + name + "]"
  }

  function EntryLines(section: Section, keys: seq<string>): seq<string> {
    if keys == [] then []
    else (if keys[0] in section.values then [EntryLine(keys[0], section.values[keys[0]])] else [])
         + EntryLines(section, keys[1..])
  }

  /** A section, after a blank line if it is not the first thing in the text. */
  function SectionText(name: string, section: Section, wrote: bool): seq<string> {
    (if wrote then [""] else []) + [HeaderLine(name)] + EntryLines(section, section.order)
  }

  function SectionLines(store: Store, names: seq<string>, wrote: bool): seq<string> {
    if names == [] then []
    else if names[0] == "" || names[0] !in store.data then SectionLines(store, names[1..], wrote)
    else
      SectionText(names[0], store.data[names[0]], wrote) + SectionLines(store, names[1..], true)
  }

  function StoreLines(store: Store): seq<string> {
    var g := Lookup(store, "");
    EntryLines(g, g.order) + SectionLines(store, store.order, g.order != [])
  }

  function Join(lines: seq<string>): string {
    if lines == [] then "" else lines[0] + "\n" + Join(lines[1..])
  }

  function ToText(store: Store): string {
    Join(StoreLines(store))
  }

  // ------------------------------------------------------------------ agreement of maps and order vectors

  ghost predicate Distinct(s: seq<string>) {
    forall i, j :: 0 <= i < j < |s| ==> s[i] != s[j]
  }

  ghost predicate ValidSection(section: Section) {
    Distinct(section.order) && (forall k :: k in section.order <==> k in section.values)
  }

  /** The order vectors list exactly the keys of the maps, each once; the global section is not listed. */
  ghost predicate Valid(store: Store) {
    && (forall s :: s in store.data ==> ValidSection(store.data[s]))
    && Distinct(store.order)
    && (forall s :: s in store.order <==> s in store.data && s != "")
  }

  // ------------------------------------------------------------------ editing

  /** `setValue`: the key is new if the section's order vector does not have it. */
  function WithValue(store: Store, name: string, key: string, value: string): Store {
    var section := Lookup(store, name);
    PutSection(store, name, SetEntry(section, key, value, key in section.order))
  }

  function Without(s: seq<string>, x: string): (r: seq<string>)
    ensures forall y :: y in r <==> y in s && y != x
  {
    if s == [] then [] else (if s[0] == x then [] else [s[0]]) + Without(s[1..], x)
  }

  function DropSection(store: Store, section: string): Store {
    Store(store.data - {section}, Without(store.order, section))
  }

  /** `remove`: a named section goes with its last key, the global one stays. */
  function RemoveKey(store: Store, section: string, key: string): Store {
    if section !in store.data || key !in store.data[section].values then store
    else
      var was := store.data[section];
      var s := Section(was.values - {key}, Without(was.order, key));
      if section != "" && s.values == map[] then DropSection(store, section)
      else store.(data := store.data[section := s])
  }

  lemma {:induction false} WithoutIsDistinct(s: seq<string>, x: string)
    requires Distinct(s)
    ensures Distinct(Without(s, x))
    decreases |s|
  {
    if s != [] {
      WithoutIsDistinct(s[1..], x);
      var r := Without(s[1..], x);
      assert s[0] !in s[1..];
      assert forall i :: 0 <= i < |r| ==> r[i] in r;
    }
  }

  lemma PutSectionValid(store: Store, name: string, section: Section)
    requires Valid(store) && ValidSection(section)
    ensures Valid(PutSection(store, name, section))
  {
  }

  /** `setValue` keeps maps and order vectors in agreement. */
  lemma SetValueValid(store: Store, name: string, key: string, value: string)
    requires Valid(store)
    ensures Valid(WithValue(store, name, key, value))
  {
    var section := Lookup(store, name);
    PutSectionValid(store, name, SetEntry(section, key, value, key in section.order));
  }

  lemma DropSectionValid(store: Store, name: string)
    requires Valid(store) && name != ""
    ensures Valid(DropSection(store, name))
  {
    WithoutIsDistinct(store.order, name);
  }

  /** So does `remove`, whether or not the section goes with the key. */
  lemma RemoveKeyValid(store: Store, section: string, key: string)
    requires Valid(store)
    ensures Valid(RemoveKey(store, section, key))
  {
    if section in store.data && key in store.data[section].values {
      WithoutIsDistinct(store.data[section].order, key);
      if section != "" {
        DropSectionValid(store, section);
      }
    }
  }

  // ------------------------------------------------------------------ what the edits mean

  function ValuesOf(store: Store, section: string): map<string, string> {
    if section in store.data then store.data[section].values else map[]
  }

  function KeysOf(store: Store, section: string): seq<string> {
    if section in store.data then store.data[section].order else []
  }

  /** Every other section is there or not as before, with the same keys in the same order and the same values. */
  ghost predicate OthersKept(was: Store, now: Store, section: string) {
    forall s :: s != section ==>
      && (s in now.data <==> s in was.data)
      && ValuesOf(now, s) == ValuesOf(was, s) && KeysOf(now, s) == KeysOf(was, s)
  }

  /** `x` goes last unless it is there already. */
  ghost predicate LastIfNew(was: seq<string>, now: seq<string>, x: string) {
    if x in was then now == was else now == was + [x]
  }

  /** `x` goes, and the others keep their order. */
  ghost predicate TakenOut(was: seq<string>, now: seq<string>, x: string) {
    && x !in now && (x !in was ==> now == was)
    && forall i :: 0 <= i < |was| && was[i] == x ==> now == was[..i] + was[i + 1..]
  }

  /** One key of one section has the value, in its old place or last; nothing else has changed. */
  ghost predicate KeySet(was: Store, now: Store, section: string, key: string, value: string) {
    && OthersKept(was, now, section) && section in now.data
    && ValuesOf(now, section) == ValuesOf(was, section)[key := value]
    && LastIfNew(KeysOf(was, section), KeysOf(now, section), key)
    && (if section == "" then now.order == was.order else LastIfNew(was.order, now.order, section))
  }

  /** One section is gone; the others keep their order. */
  ghost predicate SectionGone(was: Store, now: Store, section: string) {
    OthersKept(was, now, section) && section !in now.data && TakenOut(was.order, now.order, section)
  }

  /** One key of one section is gone; a named section goes exactly if that was its last key. */
  ghost predicate KeyGone(was: Store, now: Store, section: string, key: string) {
    if section != "" && ValuesOf(was, section).Keys == {key} then SectionGone(was, now, section)
    else
      && OthersKept(was, now, section) && now.order == was.order && section in now.data
      && ValuesOf(now, section) == ValuesOf(was, section) - {key}
      && TakenOut(KeysOf(was, section), KeysOf(now, section), key)
  }

  lemma SetValueSets(store: Store, section: string, key: string, value: string)
    ensures KeySet(store, WithValue(store, section, key, value), section, key, value)
  {
  }

  lemma {:induction false} WithoutAbsent(s: seq<string>, x: string)
    requires x !in s
    ensures Without(s, x) == s
  {
    if s != [] { WithoutAbsent(s[1..], x); }
  }

  lemma {:induction false} WithoutAt(s: seq<string>, i: nat)
    requires Distinct(s) && i < |s|
    ensures Without(s, s[i]) == s[..i] + s[i + 1..]
    decreases i
  {
    if i == 0 {
      WithoutAbsent(s[1..], s[0]);
    } else {
      WithoutAt(s[1..], i - 1);
      assert s[..i] + s[i + 1..] == [s[0]] + (s[1..][..i - 1] + s[1..][i..]);
    }
  }

  lemma WithoutTakesOut(s: seq<string>, x: string)
    requires Distinct(s)
    ensures TakenOut(s, Without(s, x), x)
  {
    if x !in s { WithoutAbsent(s, x); }
    forall i | 0 <= i < |s| && s[i] == x ensures Without(s, x) == s[..i] + s[i + 1..] { WithoutAt(s, i); }
  }

  lemma RemoveSectionRemoves(store: Store, section: string)
    requires Valid(store)
    ensures SectionGone(store, DropSection(store, section), section)
  {
    WithoutTakesOut(store.order, section);
  }

  lemma LastKey(values: map<string, string>, key: string)
    requires key in values
    ensures values - {key} == map[] <==> values.Keys == {key}
  {
    if values - {key} == map[] {
      assert forall k :: k in values ==> k == key || k in values - {key};
    }
  }

  lemma KeyGoes(store: Store, section: string, key: string, s: Section)
    requires section in store.data && s.values == store.data[section].values - {key}
    requires TakenOut(store.data[section].order, s.order, key) && (section == "" || s.values != map[])
    requires key in store.data[section].values
    ensures KeyGone(store, store.(data := store.data[section := s]), section, key)
  {
    LastKey(store.data[section].values, key);
  }

  lemma RemoveKeyRemoves(store: Store, section: string, key: string)
    requires Valid(store) && section in store.data && key in store.data[section].values
    ensures KeyGone(store, RemoveKey(store, section, key), section, key)
  {
    var was := store.data[section];
    var s := Section(was.values - {key}, Without(was.order, key));
    WithoutTakesOut(was.order, key);
    if section != "" && s.values == map[] {
      LastKey(was.values, key);
      RemoveSectionRemoves(store, section);
    } else {
      KeyGoes(store, section, key, s);
    }
  }

  // ------------------------------------------------------------------ names and values that survive printing

  ghost predicate Clean(s: string) {
    s == Trim(s) && '\n' !in s
  }

  ghost predicate KeyOk(k: string) {
    Clean(k) && k != "" && '=' !in k && k[0] != '[' && !IsMark(k[0])
  }

  ghost predicate ValueOk(v: string) {
    Clean(v) && CommentFrom(v, 0) == |v|
  }

  ghost predicate SectionOk(s: string) {
    Clean(s) && s != ""
  }

  ghost predicate WellFormedSection(section: Section) {
    forall k :: k in section.values ==> KeyOk(k) && ValueOk(section.values[k])
  }

  /** Every name and value can be told apart from comments, headers and padding. */
  ghost predicate WellFormed(store: Store) {
    forall s :: s in store.data ==> (s == "" || SectionOk(s)) && WellFormedSection(store.data[s])
  }

  /** An emptied global section leaves no trace in the text. */
  function Canonical(store: Store): Store {
    if "" in store.data && store.data[""].order == [] then store.(data := store.data - {""}) else store
  }

  // ------------------------------------------------------------------ the object

  lemma {:induction false} JoinBoth(a: seq<string>, b: seq<string>)
    ensures Join(a + b) == Join(a) + Join(b)
    decreases |a|
  {
    if a == [] {
      assert a + b == b;
    } else {
      assert (a + b)[0] == a[0] && (a + b)[1..] == a[1..] + b;
      JoinBoth(a[1..], b);
    }
  }

  datatype Failure = NoError | LoadError(problem: Problem, line: nat)

  class IniParser {
    var data: map<string, Section>
    var order: seq<string>
    var error: Failure

    function Contents(): Store
      reads this
    {
      Store(data, order)
    }

    constructor ()
      ensures Contents() == EMPTY_STORE && error == NoError
    {
      data, order, error := map[], [], NoError;
    }

    /** Installs the parsed store, or keeps the old one and reports the first bad line. */
    method LoadFromString(content: string) returns (ok: bool)
      modifies this
      ensures ok == Load(content).Ok?
      ensures ok ==> Contents() == Load(content).value && error == NoError
      ensures !ok ==> Contents() == old(Contents()) && error == LoadError(Load(content).problem, Load(content).line)
    {
      var parsed := Loading(EMPTY_STORE, "");
      var rest, number := content, 0;
      while rest != ""
        invariant LoadLines(LoadLine, parsed, Pieces(rest, '\n'), number + 1)
               == LoadLines(LoadLine, Loading(EMPTY_STORE, ""), Pieces(content, '\n'), 1)
        invariant Contents() == old(Contents())
        decreases |rest|
      {
        number := number + 1;
        var i := Find(rest, '\n');
        var next := LoadLine(parsed, rest[..i], number);
        if next.Err? {
          error := LoadError(next.problem, next.line);
          return false;
        }
        parsed := next.value;
        rest := if i < |rest| then rest[i + 1..] else "";
      }
      data, order, error := parsed.store.data, parsed.store.order, NoError;
      ok := true;
    }

    method PrintEntries(text: string, section: Section) returns (out: string)
      ensures out == text + Join(EntryLines(section, section.order))
    {
      out := text;
      var keys := section.order;
      for i := 0 to |keys|
        invariant out + Join(EntryLines(section, keys[i..])) == text + Join(EntryLines(section, keys))
      {
        assert keys[i..][1..] == keys[i + 1..];
        if keys[i] in section.values {
          var line := EntryLine(keys[i], section.values[keys[i]]);
          JoinBoth([line], EntryLines(section, keys[i + 1..]));
          assert Join([line]) == line + "\n";
          assert out + (line + "\n") + Join(EntryLines(section, keys[i + 1..]))
              == out + Join(EntryLines(section, keys[i..]));
          out := out + (line + "\n");
        } else {
          assert EntryLines(section, keys[i..]) == EntryLines(section, keys[i + 1..]);
        }
      }
    }

    method PrintSection(text: string, name: string, section: Section, wrote: bool) returns (out: string)
      ensures out == text + Join(SectionText(name, section, wrote))
    {
      var head := (if wrote then [""] else []) + [HeaderLine(name)];
      out := PrintEntries(text + Join(head), section);
      JoinBoth(head, EntryLines(section, section.order));
    }

    method ToString() returns (text: string)
      ensures text == ToText(Contents())
    {
      var global := Lookup(Contents(), "");
      text := PrintEntries("", global);
      var wrote := global.order != [];
      ghost var done := EntryLines(global, global.order);
      for i := 0 to |order|
        invariant text == Join(done)
        invariant done + SectionLines(Contents(), order[i..], wrote) == StoreLines(Contents())
      {
        assert order[i..][1..] == order[i + 1..];
        if order[i] != "" && order[i] in data {
          var section := data[order[i]];
          ghost var lines := SectionText(order[i], section, wrote);
          text := PrintSection(text, order[i], section, wrote);
          JoinBoth(done, lines);
          assert done + (lines + SectionLines(Contents(), order[i + 1..], true))
              == done + lines + SectionLines(Contents(), order[i + 1..], true);
          done, wrote := done + lines, true;
        }
      }
      assert done + [] == done;
    }

    method SetValue(section: string, key: string, value: string)
      requires Valid(Contents())
      modifies this
      ensures Contents() == WithValue(old(Contents()), section, key, value) && Valid(Contents())
      ensures KeySet(old(Contents()), Contents(), section, key, value)
    {
      SetValueValid(Contents(), section, key, value);
      SetValueSets(Contents(), section, key, value);
      var s := Lookup(Contents(), section);
      s := SetEntry(s, key, value, key in s.order);
      data := data[section := s];
      if section != "" && section !in order {
        order := order + [section];
      }
      error := NoError;
    }

    method Remove(section: string, key: string) returns (removed: bool)
      requires Valid(Contents())
      modifies this
      ensures removed == (section in old(data) && key in old(data)[section].values)
      ensures Contents() == RemoveKey(old(Contents()), section, key) && Valid(Contents())
      ensures if removed then KeyGone(old(Contents()), Contents(), section, key) else Contents() == old(Contents())
    {
      RemoveKeyValid(Contents(), section, key);
      if section !in data || key !in data[section].values {
        return false;
      }
      RemoveKeyRemoves(Contents(), section, key);
      var s := Section(data[section].values - {key}, Without(data[section].order, key));
      if section != "" && s.values == map[] {
        data, order := data - {section}, Without(order, section);
      } else {
        data := data[section := s];
      }
      removed := true;
    }

    method RemoveSection(section: string) returns (removed: bool)
      requires Valid(Contents())
      modifies this
      ensures removed == (section != "" && section in old(data))
      ensures Contents() == (if removed then DropSection(old(Contents()), section) else old(Contents()))
      ensures Valid(Contents()) && (removed ==> SectionGone(old(Contents()), Contents(), section))
    {
      if section == "" || section !in data {
        return false;
      }
      DropSectionValid(Contents(), section);
      RemoveSectionRemoves(Contents(), section);
      data, order := data - {section}, Without(order, section);
      removed := true;
    }
  }
}
