/** Loading and printing undo each other, for exactly the stores whose names and values are well formed. */
module IniRoundTrip {
  import opened Text
  import opened IniStore

  // ------------------------------------------------------------------ trimming

  ghost predicate NoPad(s: string) {
    s == "" || (!IsSpace(s[0]) && !IsSpace(s[|s| - 1]))
  }

  /** A suffix and then a prefix of it: what is cut off at both ends was white space. */
  lemma CutTwice(s: string, t: string, u: string)
    requires |t| <= |s| && t == s[|s| - |t|..] && |u| <= |t| && u == t[..|u|]
    requires (forall k :: 0 <= k < |s| - |t| ==> IsSpace(s[k])) && (forall k :: |u| <= k < |t| ==> IsSpace(t[k]))
    requires (t != "" ==> !IsSpace(t[0])) && (u != "" ==> !IsSpace(u[|u| - 1]))
    ensures u == s[|s| - |t|..|s| - |t| + |u|] && NoPad(u)
    ensures forall k :: 0 <= k < |s| - |t| || |s| - |t| + |u| <= k < |s| ==> IsSpace(s[k])
  {
    assert forall k :: |s| - |t| <= k < |s| ==> s[k] == t[k - (|s| - |t|)];
  }

  /** Trimming cuts out a piece without padding, and everything around it is white space. */
  lemma TrimCuts(s: string) returns (a: nat, b: nat)
    ensures a <= b <= |s| && Trim(s) == s[a..b] && NoPad(Trim(s))
    ensures forall k :: 0 <= k < a || b <= k < |s| ==> IsSpace(s[k])
  {
    var t := SkipSpaces(s);
    a := |s| - |t|;
    b := a + |SkipSpacesBack(t)|;
    SkipSpacesCuts(s);
    SkipSpacesBackCuts(t);
    CutTwice(s, t, SkipSpacesBack(t));
  }

  lemma NoPadIsTrimmed(s: string)
    ensures NoPad(s) <==> Trim(s) == s
  {
    var a, b := TrimCuts(s);
  }

  /** Trimming removes exactly the padding around a piece without any. */
  lemma TrimPadded(s: string, a: nat, b: nat)
    requires a < b <= |s| && !IsSpace(s[a]) && !IsSpace(s[b - 1])
    requires forall k :: 0 <= k < a || b <= k < |s| ==> IsSpace(s[k])
    ensures Trim(s) == s[a..b]
  {
    var c, d := TrimCuts(s);
    assert c <= a && b <= d;
    assert Trim(s)[0] == s[c] && Trim(s)[|Trim(s)| - 1] == s[d - 1];
  }

  lemma TrimIsClean(s: string)
    requires '\n' !in s
    ensures Clean(Trim(s))
  {
    var a, b := TrimCuts(s);
    NoPadIsTrimmed(Trim(s));
  }

  // ------------------------------------------------------------------ what loading produces

  /** A trimmed piece of what precedes the first comment holds no comment. */
  lemma NoCommentInside(s: string, c: nat, a: nat, b: nat)
    requires a <= b <= c <= |s| && (forall k :: 0 <= k < c ==> !StartsComment(s, k))
    requires (forall k :: 0 <= k < a ==> IsSpace(s[k]))
    ensures forall i :: 0 <= i < b - a ==> !StartsComment(s[..c][a..b], i)
  {
    forall i | 0 <= i < b - a ensures !StartsComment(s[..c][a..b], i) {
      var v := s[..c][a..b];
      assert v[i] == s[a + i] && (i > 0 ==> v[i - 1] == s[a + i - 1]);
      assert !StartsComment(s, a + i);
    }
  }

  lemma StripIsValueOk(s: string)
    requires '\n' !in s
    ensures ValueOk(StripComment(s))
  {
    var c := CommentFrom(s, 0);
    TrimIsClean(s[..c]);
    var a, b := TrimCuts(s[..c]);
    assert forall k :: 0 <= k < a ==> s[..c][k] == s[k];
    NoCommentInside(s, c, a, b);
  }

  lemma KeyIsOk(line: string, eq: nat)
    requires '\n' !in line && eq == Find(line, '=') < |line|
    requires !IsSpace(line[0]) && !IsMark(line[0]) && line[0] != '[' && Trim(line[..eq]) != ""
    ensures KeyOk(Trim(line[..eq]))
  {
    var a, b := TrimCuts(line[..eq]);
    TrimIsClean(line[..eq]);
    assert eq > 0 && !IsSpace(line[..eq][0]);
  }

  /** What loading keeps: agreement, well-formed names, and no empty global section. */
  ghost predicate LoadingOk(l: Loading) {
    && Valid(l.store) && WellFormed(l.store)
    && ("" in l.store.data ==> l.store.data[""].order != [])
    && (l.current == "" || l.current in l.store.data)
  }

  lemma SetEntryWellFormed(section: Section, key: string, value: string, known: bool)
    requires WellFormedSection(section) && KeyOk(key) && ValueOk(value)
    ensures WellFormedSection(SetEntry(section, key, value, known))
  {
    var values := SetEntry(section, key, value, known).values;
    forall k | k in values ensures KeyOk(k) && ValueOk(values[k]) {
      if k != key {
        assert k in section.values && values[k] == section.values[k];
      }
    }
  }

  lemma PutSectionWellFormed(store: Store, name: string, section: Section)
    requires WellFormed(store) && WellFormedSection(section) && (name == "" || SectionOk(name))
    ensures WellFormed(PutSection(store, name, section))
  {
    var data := PutSection(store, name, section).data;
    forall s | s in data ensures (s == "" || SectionOk(s)) && WellFormedSection(data[s]) {
      if s != name {
        assert s in store.data && data[s] == store.data[s];
      }
    }
  }

  lemma PutEntryValid(l: Loading, key: string, value: string)
    requires Valid(l.store)
    ensures Valid(PutEntry(l, key, value).store)
  {
    var section := Lookup(l.store, l.current);
    PutSectionValid(l.store, l.current, SetEntry(section, key, value, key in section.values));
  }

  lemma PutEntryOk(l: Loading, key: string, value: string)
    requires LoadingOk(l) && KeyOk(key) && ValueOk(value)
    ensures LoadingOk(PutEntry(l, key, value))
  {
    var section := Lookup(l.store, l.current);
    PutEntryValid(l, key, value);
    SetEntryWellFormed(section, key, value, key in section.values);
    PutSectionWellFormed(l.store, l.current, SetEntry(section, key, value, key in section.values));
  }

  lemma OpenSectionOk(l: Loading, name: string)
    requires LoadingOk(l) && SectionOk(name)
    ensures LoadingOk(OpenSection(l, name))
  {
    if name !in l.store.data {
      assert OpenSection(l, name).store == PutSection(l.store, name, EMPTY_SECTION);
      PutSectionValid(l.store, name, EMPTY_SECTION);
      PutSectionWellFormed(l.store, name, EMPTY_SECTION);
    }
  }

  lemma LoadLineOk(l: Loading, raw: string, number: nat)
    requires LoadingOk(l) && '\n' !in raw && LoadLine(l, raw, number).Ok?
    ensures LoadingOk(LoadLine(l, raw, number).value)
  {
    var line := Trim(DropReturn(raw));
    TrimIsClean(DropReturn(raw));
    NoPadIsTrimmed(line);
    if line != "" && !IsMark(line[0]) {
      if line[0] == '[' {
        TrimIsClean(line[1..|line| - 1]);
        OpenSectionOk(l, Trim(line[1..|line| - 1]));
      } else {
        var eq := Find(line, '=');
        KeyIsOk(line, eq);
        StripIsValueOk(line[eq + 1..]);
        PutEntryOk(l, Trim(line[..eq]), StripComment(line[eq + 1..]));
      }
    }
  }

  lemma {:induction false} LoadLinesOk(l: Loading, lines: seq<string>, number: nat)
    requires LoadingOk(l) && (forall i :: 0 <= i < |lines| ==> '\n' !in lines[i])
    ensures LoadLines(LoadLine, l, lines, number).Ok? ==> LoadingOk(LoadLines(LoadLine, l, lines, number).value)
    decreases |lines|
  {
    if lines != [] {
      var first := LoadLine(l, lines[0], number);
      if first.Ok? {
        LoadLineOk(l, lines[0], number);
        LoadLinesOk(first.value, lines[1..], number + 1);
      }
    }
  }

  lemma {:induction false} PiecesHaveNoSeparator(s: string, sep: char)
    ensures forall i :: 0 <= i < |Pieces(s, sep)| ==> sep !in Pieces(s, sep)[i]
    decreases |s|
  {
    if s != "" && Find(s, sep) < |s| {
      PiecesHaveNoSeparator(s[Find(s, sep) + 1..], sep);
    }
  }

  /** Whatever loads is in agreement, well formed and canonical. */
  lemma LoadedIsWellFormed(content: string)
    requires Load(content).Ok?
    ensures var store := Load(content).value;
            Valid(store) && WellFormed(store) && Canonical(store) == store
  {
    PiecesHaveNoSeparator(content, '\n');
    LoadLinesOk(Loading(EMPTY_STORE, ""), Pieces(content, '\n'), 1);
  }

  // ------------------------------------------------------------------ loading printed lines

  lemma EntryValue(v: string)
    requires ValueOk(v)
    ensures StripComment(" " + v) == v && StripComment("") == ""
  {
    var s := " " + v;
    forall k | 0 <= k < |s| ensures !StartsComment(s, k) {
      if k > 0 {
        assert s[k] == v[k - 1] && (k > 1 ==> s[k - 1] == v[k - 2]);
        assert !StartsComment(v, k - 1);
      }
    }
    assert CommentFrom(s, 0) == |s| && s[..|s|] == s;
    NoPadIsTrimmed(v);
    if v == "" {
      var a, b := TrimCuts(s);
      assert Trim(s) == "";
    } else {
      TrimPadded(s, 1, |s|);
    }
  }

  lemma FindAfter(a: string, c: char, rest: string)
    requires c !in a
    ensures var s := a + [c] + rest; Find(s, c) == |a| && s[..|a|] == a && s[|a| + 1..] == rest
  {
    var s := a + [c] + rest;
    assert s[|a|] == c;
    assert forall i :: 0 <= i < |a| ==> s[i] == a[i];
  }

  lemma TrimOneAfter(k: string)
    requires k != "" && NoPad(k)
    ensures Trim(k + " ") == k
  {
    TrimPadded(k + " ", 0, |k|);
    assert (k + " ")[0..|k|] == k;
  }

  lemma EmptyEntryTrimmed(k: string)
    requires k != "" && NoPad(k)
    ensures Trim(k + " = ") == k + " ="
  {
    var raw := k + " = ";
    TrimPadded(raw, 0, |raw| - 1);
    assert raw[0..|raw| - 1] == k + " =";
  }

  lemma FullEntryTrimmed(k: string, v: string)
    requires k != "" && NoPad(k) && v != "" && NoPad(v)
    ensures Trim(k + " = " + v) == k + " = " + v
  {
    var raw := k + " = " + v;
    assert raw[0] == k[0] && raw[|raw| - 1] == v[|v| - 1];
    NoPadIsTrimmed(raw);
  }

  /** A printed line does not end in a carriage return. */
  lemma NoReturn(k: string, v: string)
    requires NoPad(v)
    ensures DropReturn(k + " = " + v) == k + " = " + v
  {
    var raw := k + " = " + v;
    assert raw[|raw| - 1] == if v == "" then ' ' else v[|v| - 1];
  }

  /** A printed key line, trimmed, is the key, an equals sign and what follows it. */
  lemma EntryTrimmed(k: string, v: string)
    requires k != "" && NoPad(k) && NoPad(v)
    ensures Trim(DropReturn(k + " = " + v)) == k + " " + ['='] + (if v == "" then "" else " " + v)
  {
    NoReturn(k, v);
    if v == "" {
      assert k + " = " + v == k + " = ";
      EmptyEntryTrimmed(k);
      assert k + " =" == k + " " + ['='] + "";
    } else {
      FullEntryTrimmed(k, v);
      assert k + " = " + v == k + " " + ['='] + (" " + v);
    }
  }

  lemma LoadsSplit(l: Loading, line: string, key: string, value: string, number: nat)
    requires line != "" && !IsMark(line[0]) && line[0] != '[' && key != ""
    requires var eq := Find(line, '='); eq < |line| && Trim(line[..eq]) == key && StripComment(line[eq + 1..]) == value
    ensures LoadTrimmed(l, line, number) == Ok(PutEntry(l, key, value))
  {
  }

  lemma EntrySplits(k: string, rest: string)
    requires k != "" && NoPad(k) && '=' !in k
    ensures var line := k + " " + ['='] + rest; var eq := Find(line, '=');
            eq == |k| + 1 < |line| && line[0] == k[0] && Trim(line[..eq]) == k && line[eq + 1..] == rest
  {
    assert '=' !in k + " ";
    FindAfter(k + " ", '=', rest);
    TrimOneAfter(k);
  }

  lemma LoadsEntry(l: Loading, k: string, v: string, number: nat)
    requires KeyOk(k) && ValueOk(v)
    ensures LoadLine(l, EntryLine(k, v), number) == Ok(PutEntry(l, k, v))
  {
    NoPadIsTrimmed(k);
    NoPadIsTrimmed(v);
    EntryTrimmed(k, v);
    var rest := if v == "" then "" else " " + v;
    EntrySplits(k, rest);
    EntryValue(v);
    LoadsSplit(l, k + " " + ['='] + rest, k, v, number);
  }

  lemma HeaderTrimmed(name: string)
    ensures Trim(DropReturn("[" + name + "]")) == "[" + name + "]"
  {
    var raw := "[" + name + "]";
    assert raw[|raw| - 1] == ']';
    NoPadIsTrimmed(raw);
  }

  lemma LoadsHeader(l: Loading, name: string, number: nat)
    requires SectionOk(name)
    ensures LoadLine(l, HeaderLine(name), number) == Ok(OpenSection(l, name))
  {
    var raw := "[" + name + "]";
    HeaderTrimmed(name);
    assert raw[0] == '[' && raw[|raw| - 1] == ']' && raw[1..|raw| - 1] == name;
    assert LoadTrimmed(l, raw, number) == Ok(OpenSection(l, name));
  }

  // ------------------------------------------------------------------ loading printed sections

  type LineStep = (Loading, string, nat) -> Result<Loading>

  /** Loading `lines` takes `l` to `m`, wherever in the text they stand. */
  ghost predicate Reads(step: LineStep, l: Loading, lines: seq<string>, m: Loading) {
    forall n: nat :: LoadLines(step, l, lines, n) == Ok(m)
  }

  lemma ReadsLine(step: LineStep, l: Loading, line: string, m: Loading)
    requires forall n: nat :: step(l, line, n) == Ok(m)
    ensures Reads(step, l, [line], m)
  {
    assert [line][1..] == [];
  }

  lemma {:induction false} ReadsBoth(step: LineStep, l: Loading, a: seq<string>, m: Loading, b: seq<string>, k: Loading)
    requires Reads(step, l, a, m) && Reads(step, m, b, k)
    ensures Reads(step, l, a + b, k)
    decreases |a|
  {
    forall n: nat ensures LoadLines(step, l, a + b, n) == Ok(k) {
      ReadsThen(step, l, a, n, b);
    }
  }

  lemma {:induction false} ReadsThen(step: LineStep, l: Loading, a: seq<string>, n: nat, b: seq<string>)
    requires LoadLines(step, l, a, n).Ok?
    ensures LoadLines(step, l, a + b, n) == LoadLines(step, LoadLines(step, l, a, n).value, b, n + |a|)
    decreases |a|
  {
    if a == [] {
      assert a + b == b;
    } else {
      assert (a + b)[0] == a[0] && (a + b)[1..] == a[1..] + b;
      ReadsThen(step, step(l, a[0], n).value, a[1..], n + 1, b);
    }
  }

  /** The section that results from entering `keys` of `from` into `into`. */
  ghost function Entered(into: Section, from: Section, keys: seq<string>): Section
    requires forall k :: k in keys ==> k in from.values
  {
    Section(into.values + (map k | k in keys :: from.values[k]), into.order + keys)
  }

  ghost function EnterAll(l: Loading, from: Section, keys: seq<string>): Loading
    requires forall k :: k in keys ==> k in from.values
  {
    if keys == [] then l
    else l.(store := PutSection(l.store, l.current, Entered(Lookup(l.store, l.current), from, keys)))
  }

  lemma FirstKeyFirst(into: map<string, string>, from: map<string, string>, keys: seq<string>)
    requires keys != [] && forall k :: k in keys ==> k in from
    ensures into + (map k | k in keys :: from[k]) == into[keys[0] := from[keys[0]]]
      + (map k | k in keys[1..] :: from[k])
  {
    assert forall k :: k in keys <==> k == keys[0] || k in keys[1..];
  }

  lemma EnteredStep(into: Section, from: Section, keys: seq<string>)
    requires keys != [] && forall k :: k in keys ==> k in from.values
    ensures Entered(into, from, keys)
         == Entered(SetEntry(into, keys[0], from.values[keys[0]], false), from, keys[1..])
  {
    FirstKeyFirst(into.values, from.values, keys);
    assert into.order + [keys[0]] + keys[1..] == into.order + keys;
  }

  lemma EnteredNothing(into: Section, from: Section)
    ensures Entered(into, from, []) == into
  {
    assert into.order + [] == into.order;
    assert Entered(into, from, []).values == into.values;
  }

  lemma PutTwice(store: Store, name: string, a: Section, b: Section)
    ensures PutSection(PutSection(store, name, a), name, b) == PutSection(store, name, b)
    ensures Lookup(PutSection(store, name, a), name) == a
  {
    assert store.data[name := a][name := b] == store.data[name := b];
  }

  lemma EnterFirst(l: Loading, from: Section, keys: seq<string>)
    requires keys != [] && Distinct(keys) && forall k :: k in keys ==> k in from.values
    requires keys[0] !in Lookup(l.store, l.current).values
    ensures EnterAll(PutEntry(l, keys[0], from.values[keys[0]]), from, keys[1..]) == EnterAll(l, from, keys)
  {
    var into := Lookup(l.store, l.current);
    var next := SetEntry(into, keys[0], from.values[keys[0]], false);
    EnteredStep(into, from, keys);
    EnteredNothing(next, from);
    PutTwice(l.store, l.current, next, Entered(next, from, keys[1..]));
  }

  /** No key of `keys` is in the current section yet. */
  ghost predicate AllNew(l: Loading, keys: seq<string>) {
    forall i :: 0 <= i < |keys| ==> keys[i] !in Lookup(l.store, l.current).values
  }

  lemma EnterKeepsNew(l: Loading, keys: seq<string>, value: string)
    requires keys != [] && Distinct(keys) && AllNew(l, keys)
    ensures AllNew(PutEntry(l, keys[0], value), keys[1..]) && Distinct(keys[1..])
  {
    var into := Lookup(l.store, l.current);
    PutTwice(l.store, l.current, SetEntry(into, keys[0], value, false), into);
  }

  /** `step` reads back the printed entries of a section. */
  ghost predicate ReadsEntries(step: LineStep, from: Section) {
    forall k, l, n {:trigger step(l, EntryLine(k, from.values[k]), n)} :: k in from.values ==>
      step(l, EntryLine(k, from.values[k]), n) == Ok(PutEntry(l, k, from.values[k]))
  }

  lemma EntryLinesFirst(from: Section, keys: seq<string>)
    requires keys != [] && keys[0] in from.values
    ensures EntryLines(from, keys) == [EntryLine(keys[0], from.values[keys[0]])] + EntryLines(from, keys[1..])
  {
  }

  lemma ReadsEntry(step: LineStep, l: Loading, from: Section, k: string)
    requires k in from.values && ReadsEntries(step, from)
    ensures Reads(step, l, [EntryLine(k, from.values[k])], PutEntry(l, k, from.values[k]))
  {
    ReadsLine(step, l, EntryLine(k, from.values[k]), PutEntry(l, k, from.values[k]));
  }

  lemma {:induction false} LoadsEntries(step: LineStep, l: Loading, from: Section, keys: seq<string>)
    requires Distinct(keys) && AllNew(l, keys) && (forall k :: k in keys ==> k in from.values)
    requires ReadsEntries(step, from)
    ensures Reads(step, l, EntryLines(from, keys), EnterAll(l, from, keys))
    decreases |keys|
  {
    if keys != [] {
      var v := from.values[keys[0]];
      var m := PutEntry(l, keys[0], v);
      EnterFirst(l, from, keys);
      EnterKeepsNew(l, keys, v);
      ReadsEntry(step, l, from, keys[0]);
      LoadsEntries(step, m, from, keys[1..]);
      ReadsBoth(step, l, [EntryLine(keys[0], v)], m, EntryLines(from, keys[1..]), EnterAll(l, from, keys));
      EntryLinesFirst(from, keys);
    }
  }

  // ------------------------------------------------------------------ loading a printed store

  ghost predicate ReadsSections(step: LineStep, store: Store) {
    && (forall l, n :: step(l, "", n) == Ok(l))
    && (forall s, l, n :: s in store.data && s != "" ==> step(l, HeaderLine(s), n) == Ok(OpenSection(l, s)))
    && (forall s :: s in store.data ==> ReadsEntries(step, store.data[s]))
  }

  /** A section entered into a fresh one of the same name is that section. */
  lemma EnterWhole(l: Loading, name: string, section: Section)
    requires ValidSection(section) && name != "" && name !in l.store.data && name !in l.store.order
    ensures EnterAll(OpenSection(l, name), section, section.order)
         == Loading(PutSection(l.store, name, section), name)
    ensures AllNew(OpenSection(l, name), section.order)
  {
    var m := OpenSection(l, name);
    assert m.store == PutSection(l.store, name, EMPTY_SECTION);
    PutTwice(l.store, name, EMPTY_SECTION, section);
    assert Entered(EMPTY_SECTION, section, section.order).values == section.values;
    assert [] + section.order == section.order;
    if section.order == [] {
      assert section.values == map[];
    }
  }

  /** The loading state after the sections `names` of `store` have been read. */
  ghost function PutAll(l: Loading, store: Store, names: seq<string>): Loading
    requires forall s :: s in names ==> s in store.data
    decreases |names|
  {
    if names == [] then l
    else PutAll(Loading(PutSection(l.store, names[0], store.data[names[0]]), names[0]), store, names[1..])
  }

  lemma LoadsOneSection(step: LineStep, l: Loading, store: Store, name: string, wrote: bool)
    requires ReadsSections(step, store) && name in store.data && ValidSection(store.data[name])
    requires name != "" && name !in l.store.data && name !in l.store.order
    ensures Reads(step, l, SectionText(name, store.data[name], wrote),
      Loading(PutSection(l.store, name, store.data[name]), name))
  {
    var section := store.data[name];
    var m, k := OpenSection(l, name), Loading(PutSection(l.store, name, section), name);
    ReadsLine(step, l, "", l);
    ReadsLine(step, l, HeaderLine(name), m);
    EnterWhole(l, name, section);
    LoadsEntries(step, m, section, section.order);
    if wrote {
      ReadsBoth(step, l, [""], l, [HeaderLine(name)], m);
      ReadsBoth(step, l, [""] + [HeaderLine(name)], m, EntryLines(section, section.order), k);
    } else {
      assert [] + [HeaderLine(name)] == [HeaderLine(name)];
      ReadsBoth(step, l, [HeaderLine(name)], m, EntryLines(section, section.order), k);
    }
  }

  ghost predicate AllAbsent(l: Loading, names: seq<string>) {
    forall i :: 0 <= i < |names| ==> names[i] != "" && names[i] !in l.store.data && names[i] !in l.store.order
  }

  lemma StillAbsent(l: Loading, names: seq<string>, section: Section)
    requires names != [] && Distinct(names) && AllAbsent(l, names)
    ensures Distinct(names[1..])
    ensures AllAbsent(Loading(PutSection(l.store, names[0], section), names[0]), names[1..])
  {
  }

  lemma {:induction false} LoadsSections(step: LineStep, l: Loading, store: Store, names: seq<string>, wrote: bool)
    requires ReadsSections(step, store) && Distinct(names) && AllAbsent(l, names)
    requires forall s :: s in names ==> s in store.data && ValidSection(store.data[s])
    ensures Reads(step, l, SectionLines(store, names, wrote), PutAll(l, store, names))
    decreases |names|
  {
    if names != [] {
      var name := names[0];
      var m := Loading(PutSection(l.store, name, store.data[name]), name);
      LoadsOneSection(step, l, store, name, wrote);
      StillAbsent(l, names, store.data[name]);
      LoadsSections(step, m, store, names[1..], true);
      ReadsBoth(step, l, SectionText(name, store.data[name], wrote), m, SectionLines(store, names[1..], true),
        PutAll(l, store, names));
      assert SectionLines(store, names, wrote) == SectionText(name, store.data[name], wrote)
        + SectionLines(store, names[1..], true);
    }
  }

  lemma AddFirst(base: map<string, Section>, from: map<string, Section>, names: seq<string>)
    requires names != [] && forall s :: s in names ==> s in from
    ensures base[names[0] := from[names[0]]] + (map s | s in names[1..] :: from[s])
         == base + (map s | s in names :: from[s])
  {
    assert names == [names[0]] + names[1..];
  }

  lemma {:induction false} PutAllData(l: Loading, store: Store, names: seq<string>)
    requires forall s :: s in names ==> s in store.data
    ensures PutAll(l, store, names).store.data == l.store.data + (map s | s in names :: store.data[s])
    decreases |names|
  {
    if names != [] {
      PutAllData(Loading(PutSection(l.store, names[0], store.data[names[0]]), names[0]), store, names[1..]);
      AddFirst(l.store.data, store.data, names);
    }
  }

  lemma {:induction false} PutAllOrder(l: Loading, store: Store, names: seq<string>)
    requires Distinct(names) && AllAbsent(l, names) && forall s :: s in names ==> s in store.data
    ensures PutAll(l, store, names).store.order == l.store.order + names
    decreases |names|
  {
    if names != [] {
      StillAbsent(l, names, store.data[names[0]]);
      PutAllOrder(Loading(PutSection(l.store, names[0], store.data[names[0]]), names[0]), store, names[1..]);
      assert l.store.order + [names[0]] + names[1..] == l.store.order + names;
    }
  }

  /** The loading state after the printed global section. */
  ghost function WithGlobal(g: Section): Loading {
    Loading(if g.order == [] then EMPTY_STORE else Store(map["" := g], []), "")
  }

  lemma LoadsGlobal(step: LineStep, g: Section)
    requires ValidSection(g) && ReadsEntries(step, g)
    ensures Reads(step, Loading(EMPTY_STORE, ""), EntryLines(g, g.order), WithGlobal(g))
  {
    var l := Loading(EMPTY_STORE, "");
    LoadsEntries(step, l, g, g.order);
    assert Entered(EMPTY_SECTION, g, g.order).values == g.values;
    assert [] + g.order == g.order;
    assert EnterAll(l, g, g.order) == WithGlobal(g);
  }

  /** A store is its global section, if that is not empty, and the sections it lists. */
  lemma GlobalAndListed(data: map<string, Section>, order: seq<string>, g: map<string, Section>)
    requires forall s :: s in order <==> s in data && s != ""
    requires g == if "" in data && data[""].order != [] then map["" := data[""]] else map[]
    ensures g + (map s | s in order :: data[s]) == if "" in data && data[""].order == [] then data - {""} else data
  {
  }

  lemma CanonicalIs(store: Store)
    requires Valid(store)
    ensures var g := WithGlobal(Lookup(store, "")).store;
            Canonical(store) == Store(g.data + (map s | s in store.order :: store.data[s]), g.order + store.order)
  {
    var g := WithGlobal(Lookup(store, "")).store;
    assert g.order + store.order == store.order;
    GlobalAndListed(store.data, store.order, g.data);
  }

  /** The lines of a printed store load back to that store. */
  lemma LoadsStore(step: LineStep, store: Store)
    requires Valid(store) && ReadsSections(step, store)
    ensures exists m: Loading ::
      m.store == Canonical(store) && Reads(step, Loading(EMPTY_STORE, ""), StoreLines(store), m)
  {
    var g := Lookup(store, "");
    var l, m := Loading(EMPTY_STORE, ""), WithGlobal(g);
    LoadsGlobal(step, g);
    LoadsSections(step, m, store, store.order, g.order != []);
    PutAllData(m, store, store.order);
    PutAllOrder(m, store, store.order);
    CanonicalIs(store);
    var k := PutAll(m, store, store.order);
    ReadsBoth(step, l, EntryLines(g, g.order), m, SectionLines(store, store.order, g.order != []), k);
  }

  // ------------------------------------------------------------------ lines and text

  ghost predicate NoBreaks(lines: seq<string>) {
    forall i :: 0 <= i < |lines| ==> '\n' !in lines[i]
  }

  lemma {:induction false} JoinSplits(lines: seq<string>)
    requires NoBreaks(lines)
    ensures Pieces(Join(lines), '\n') == lines
    decreases |lines|
  {
    if lines != [] {
      var rest := Join(lines[1..]);
      FindAfter(lines[0], '\n', rest);
      JoinSplits(lines[1..]);
      assert Join(lines) == lines[0] + ['\n'] + rest;
      assert Pieces(Join(lines), '\n') == [lines[0]] + Pieces(rest, '\n');
    }
  }

  lemma {:induction false} EntryLinesNoBreaks(section: Section, keys: seq<string>)
    requires forall k :: k in section.values ==> '\n' !in k && '\n' !in section.values[k]
    ensures NoBreaks(EntryLines(section, keys))
    decreases |keys|
  {
    if keys != [] {
      EntryLinesNoBreaks(section, keys[1..]);
    }
  }

  lemma {:induction false} SectionLinesNoBreaks(store: Store, names: seq<string>, wrote: bool)
    requires forall s :: s in store.data ==>
               '\n' !in s && forall k :: k in store.data[s].values ==> '\n' !in k && '\n' !in store.data[s].values[k]
    ensures NoBreaks(SectionLines(store, names, wrote))
    decreases |names|
  {
    if names != [] {
      if names[0] == "" || names[0] !in store.data {
        SectionLinesNoBreaks(store, names[1..], wrote);
      } else {
        EntryLinesNoBreaks(store.data[names[0]], store.data[names[0]].order);
        SectionLinesNoBreaks(store, names[1..], true);
      }
    }
  }

  lemma CleanNames(store: Store)
    requires WellFormed(store)
    ensures forall s :: s in store.data ==>
              '\n' !in s && forall k :: k in store.data[s].values ==> '\n' !in k && '\n' !in store.data[s].values[k]
  {
  }

  lemma LoadLineReads(store: Store)
    requires WellFormed(store)
    ensures ReadsSections(LoadLine, store)
  {
    forall s | s in store.data ensures ReadsEntries(LoadLine, store.data[s]) {
      var from := store.data[s];
      forall k, l, n | k in from.values
        ensures LoadLine(l, EntryLine(k, from.values[k]), n) == Ok(PutEntry(l, k, from.values[k]))
      {
        LoadsEntry(l, k, from.values[k], n);
      }
    }
    forall s, l, n | s in store.data && s != "" ensures LoadLine(l, HeaderLine(s), n) == Ok(OpenSection(l, s)) {
      LoadsHeader(l, s, n);
    }
  }

  /** Printing and loading a well-formed store gives it back: sections, key order and values. */
  lemma RoundTrip(store: Store)
    requires Valid(store) && WellFormed(store)
    ensures Load(ToText(store)) == Ok(Canonical(store))
  {
    LoadLineReads(store);
    LoadsStore(LoadLine, store);
    var g := Lookup(store, "");
    CleanNames(store);
    EntryLinesNoBreaks(g, g.order);
    SectionLinesNoBreaks(store, store.order, g.order != []);
    JoinSplits(StoreLines(store));
  }

  /** Every text that loads: printing what was loaded and loading it again changes nothing. */
  lemma LoadPrintLoad(content: string)
    requires Load(content).Ok?
    ensures Load(ToText(Load(content).value)) == Load(content)
  {
    LoadedIsWellFormed(content);
    RoundTrip(Load(content).value);
  }

  /** Exactly the well-formed stores survive. */
  lemma RoundTripExactly(store: Store)
    requires Valid(store)
    ensures Load(ToText(store)) == Ok(Canonical(store)) <==> WellFormed(store)
  {
    if WellFormed(store) {
      RoundTrip(store);
    } else if Load(ToText(store)) == Ok(Canonical(store)) {
      LoadedIsWellFormed(ToText(store));
      forall s | s in store.data ensures (s == "" || SectionOk(s)) && WellFormedSection(store.data[s]) {
        if s !in Canonical(store).data {
          assert store.data[s].values == map[];
        }
      }
    }
  }

  /** Stores built by `setValue` from well-formed names and values stay well formed. */
  lemma SetValueWellFormed(store: Store, name: string, key: string, value: string)
    requires WellFormed(store) && (name == "" || SectionOk(name)) && KeyOk(key) && ValueOk(value)
    ensures WellFormed(WithValue(store, name, key, value))
  {
    var section := Lookup(store, name);
    SetEntryWellFormed(section, key, value, key in section.order);
    PutSectionWellFormed(store, name, SetEntry(section, key, value, key in section.order));
  }

  /** A value that does not survive: its padding is lost when the text is loaded. */
  lemma PaddedValueIsLost()
    ensures var store := WithValue(EMPTY_STORE, "", "k", " x");
            Valid(store) && Load(ToText(store)) != Ok(Canonical(store))
  {
    var store := WithValue(EMPTY_STORE, "", "k", " x");
    SetValueValid(EMPTY_STORE, "", "k", " x");
    RoundTripExactly(store);
    NoPadIsTrimmed(" x");
    assert store.data[""].values["k"] == " x" && !ValueOk(" x");
  }
}
