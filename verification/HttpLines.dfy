/**
 What the request line and the header lines mean, told by the text they were written from: the words
 of the request line, the parameters of the query, the last value of every header name.
 */
module HttpLines {
  import opened Options
  import opened Text
  import opened HttpParsing

  // ------------------------------------------------------------------ words

  predicate AllSpaces(s: string) { forall k :: 0 <= k < |s| ==> IsSpace(s[k]) }

  predicate IsWord(s: string) { s != "" && forall k :: 0 <= k < |s| ==> !IsSpace(s[k]) }

  /** Nothing, or something that begins with white space. */
  predicate EndsWord(s: string) { s == "" || IsSpace(s[0]) }

  lemma {:induction false} SkipGap(gap: string, s: string)
    requires AllSpaces(gap)
    ensures SkipSpaces(gap + s) == SkipSpaces(s)
  {
    if gap == "" {
      assert gap + s == s;
    } else {
      SkipGap(gap[1..], s);
      assert (gap + s)[1..] == gap[1..] + s;
    }
  }

  lemma {:induction false} WordEnds(w: string, rest: string)
    requires (forall k :: 0 <= k < |w| ==> !IsSpace(w[k])) && EndsWord(rest)
    ensures WordLength(w + rest) == |w|
  {
    if w == "" {
      assert w + rest == rest;
    } else {
      WordEnds(w[1..], rest);
      assert (w + rest)[1..] == w[1..] + rest;
    }
  }

  lemma NextWordIs(gap: string, w: string, rest: string)
    requires AllSpaces(gap) && IsWord(w) && EndsWord(rest)
    ensures NextWord(gap + (w + rest)) == (w, rest)
  {
    var s := w + rest;
    SkipGap(gap, s);
    assert SkipSpaces(s) == s;
    WordEnds(w, rest);
    assert s[..|w|] == w && s[|w|..] == rest;
  }

  lemma NoWord(gap: string)
    requires AllSpaces(gap)
    ensures NextWord(gap) == ("", "")
  {
    SkipGap(gap, "");
    assert gap + "" == gap;
  }

  /** Every text is white space, a word or nothing, and what follows it. */
  lemma WordForm(s: string) returns (gap: string, w: string, rest: string)
    ensures AllSpaces(gap) && s == gap + (w + rest) && EndsWord(rest)
    ensures IsWord(w) || (w == "" && rest == "")
  {
    SkipSpacesCuts(s);
    var t := SkipSpaces(s);
    gap, w, rest := s[..|s| - |t|], t[..WordLength(t)], t[WordLength(t)..];
    WordLengthCuts(t);
    assert t == w + rest;
  }

  lemma {:induction false} WordLengthCuts(s: string)
    ensures var n := WordLength(s); (forall k :: 0 <= k < n ==> !IsSpace(s[k])) && (n < |s| ==> IsSpace(s[n]))
  {
    if s != "" && !IsSpace(s[0]) {
      WordLengthCuts(s[1..]);
      assert forall k :: 1 <= k < |s| ==> s[k] == s[1..][k - 1];
    }
  }

  // ------------------------------------------------------------------ letters

  lemma {:induction false} MapCharsAt(f: char -> char, s: string)
    ensures |MapChars(f, s)| == |s|
    ensures forall k :: 0 <= k < |s| ==> MapChars(f, s)[k] == f(s[k])
  {
    if s != "" {
      MapCharsAt(f, s[1..]);
    }
  }

  /** `t` is `s` with its small letters made capitals. */
  predicate InCapitals(t: string, s: string) {
    && |t| == |s|
    && forall k :: 0 <= k < |s| ==>
         if 'a' <= s[k] <= 'z' then t[k] as int == s[k] as int - 32 else t[k] == s[k]
  }

  predicate SameLetter(a: char, b: char) {
    || a == b
    || ('A' <= a <= 'Z' && b as int == a as int + 32)
    || ('A' <= b <= 'Z' && a as int == b as int + 32)
  }

  predicate SameName(a: string, b: string) {
    |a| == |b| && forall k :: 0 <= k < |a| ==> SameLetter(a[k], b[k])
  }

  lemma UpperIsCapitals(s: string)
    ensures InCapitals(MapChars(Upper, s), s)
  {
    MapCharsAt(Upper, s);
  }

  lemma SameLetterLower(a: char, b: char)
    ensures Lower(a) == Lower(b) <==> SameLetter(a, b)
  {
  }

  lemma LowerIsSameName(a: string, b: string)
    ensures MapChars(Lower, a) == MapChars(Lower, b) <==> SameName(a, b)
  {
    MapCharsAt(Lower, a);
    MapCharsAt(Lower, b);
    forall k | 0 <= k < |a| && k < |b| ensures Lower(a[k]) == Lower(b[k]) <==> SameLetter(a[k], b[k]) {
      SameLetterLower(a[k], b[k]);
    }
    if SameName(a, b) {
      assert MapChars(Lower, a) == MapChars(Lower, b);
    } else if |a| == |b| {
      var k :| 0 <= k < |a| && !SameLetter(a[k], b[k]);
      assert MapChars(Lower, a)[k] != MapChars(Lower, b)[k];
    }
  }

  // ------------------------------------------------------------------ the target and its query

  /** `key=value`, or a key alone. */
  datatype Param = Pair(key: string, value: string) | Flag(key: string)
  {
    function Text(): string { if Pair? then key + "=" + value else key }

    function Meaning(): string { if Pair? then value else "" }

    predicate Ok() {
      '=' !in key && '&' !in key && (Pair? ==> '&' !in value)
    }
  }

  /** The parameters that have a `&` after them, and what follows the last `&`. */
  datatype Query = Query(params: seq<Param>, last: Param)
  {
    predicate Ok() { (forall i :: 0 <= i < |params| ==> params[i].Ok()) && last.Ok() }

    function Text(): string { Closed(params) + last.Text() }

    /** An empty last parameter is none. */
    function All(): seq<Param> { if last == Flag("") then params else params + [last] }
  }

  function Closed(params: seq<Param>): string {
    if params == [] then "" else params[0].Text() + "&" + Closed(params[1..])
  }

  function Texts(params: seq<Param>): seq<string> {
    if params == [] then [] else [params[0].Text()] + Texts(params[1..])
  }

  lemma FindIs(a: string, c: char, rest: string)
    requires c !in a
    ensures Find(a + [c] + rest, c) == |a|
    ensures Find(a, c) == |a|
  {
    var s := a + [c] + rest;
    assert s[|a|] == c;
    assert forall k :: 0 <= k < |a| ==> s[k] == a[k];
    assert forall k :: 0 <= k < |a| ==> a[k] != c;
  }

  lemma PieceIsTaken(a: string, sep: char, rest: string)
    requires sep !in a
    ensures Pieces(a + [sep] + rest, sep) == [a] + Pieces(rest, sep)
  {
    var s := a + [sep] + rest;
    FindIs(a, sep, rest);
    assert s[..|a|] == a && s[|a| + 1..] == rest;
  }

  lemma LastPiece(a: string, sep: char)
    requires sep !in a
    ensures Pieces(a, sep) == if a == "" then [] else [a]
  {
    FindIs(a, sep, "");
    assert a[..|a|] == a;
  }

  lemma ParamText(p: Param)
    requires p.Ok()
    ensures '&' !in p.Text() && (p.Text() == "" <==> p == Flag(""))
  {
  }

  lemma ClosedFirst(a: string, b: string, c: string)
    ensures a + "&" + b + c == a + ['&'] + (b + c)
  {
  }

  lemma AllFirst(params: seq<Param>, last: Param)
    requires params != []
    ensures Query(params, last).All() == [params[0]] + Query(params[1..], last).All()
    ensures Texts(Query(params, last).All()) == [params[0].Text()] + Texts(Query(params[1..], last).All())
  {
    var all, rest := Query(params, last).All(), Query(params[1..], last).All();
    assert all == [params[0]] + rest;
    assert all[1..] == rest;
  }

  lemma {:induction false} QueryPieces(params: seq<Param>, last: Param)
    requires Query(params, last).Ok()
    ensures Pieces(Closed(params) + last.Text(), '&') == Texts(Query(params, last).All())
    decreases |params|
  {
    if params == [] {
      ParamText(last);
      assert Closed(params) + last.Text() == last.Text();
      LastPiece(last.Text(), '&');
      assert Texts([last]) == [last.Text()];
    } else {
      var p, rest := params[0], params[1..];
      ParamText(p);
      QueryPieces(rest, last);
      ClosedFirst(p.Text(), Closed(rest), last.Text());
      PieceIsTaken(p.Text(), '&', Closed(rest) + last.Text());
      AllFirst(params, last);
    }
  }

  lemma ParamIsAdded(m: map<string, string>, p: Param)
    requires p.Ok()
    ensures AddParam(m, p.Text()) == m[p.key := p.Meaning()]
  {
    if p.Pair? {
      FindIs(p.key, '=', p.value);
      assert p.Text()[..|p.key|] == p.key && p.Text()[|p.key| + 1..] == p.value;
    } else {
      FindIs(p.key, '=', "");
    }
  }

  /** Parameter `i` is the last one with its key. */
  predicate LastParam(params: seq<Param>, i: int) {
    0 <= i < |params| && forall j :: i < j < |params| ==> params[j].key != params[i].key
  }

  /** The map has exactly the keys of the parameters, each with what its last parameter says. */
  ghost predicate QueryOf(m: map<string, string>, params: seq<Param>) {
    && (forall key :: key in m <==> exists i :: 0 <= i < |params| && params[i].key == key)
    && (forall i :: LastParam(params, i) ==> params[i].key in m && m[params[i].key] == params[i].Meaning())
  }

  lemma QueryOfOne(m: map<string, string>, done: seq<Param>, p: Param)
    requires QueryOf(m, done)
    ensures QueryOf(m[p.key := p.Meaning()], done + [p])
  {
    var all, n := done + [p], m[p.key := p.Meaning()];
    forall key ensures key in n <==> exists i :: 0 <= i < |all| && all[i].key == key {
      if key == p.key { assert all[|done|].key == key; }
      if key in m { var i :| 0 <= i < |done| && done[i].key == key; assert all[i].key == key; }
    }
    forall i | LastParam(all, i) ensures all[i].key in n && n[all[i].key] == all[i].Meaning() {
      if i < |done| {
        assert all[|done|] == p;
        assert forall j :: 0 <= j < |done| ==> all[j] == done[j];
        assert LastParam(done, i);
      }
    }
  }

  lemma {:induction false} QueryOfAll(m: map<string, string>, done: seq<Param>, params: seq<Param>)
    requires QueryOf(m, done) && forall i :: 0 <= i < |params| ==> params[i].Ok()
    ensures QueryOf(AddParams(m, Texts(params)), done + params)
    decreases |params|
  {
    if params == [] {
      assert done + params == done;
    } else {
      var p := params[0];
      ParamIsAdded(m, p);
      QueryOfOne(m, done, p);
      QueryOfAll(m[p.key := p.Meaning()], done + [p], params[1..]);
      assert done + [p] + params[1..] == done + params;
      assert Texts(params)[1..] == Texts(params[1..]);
    }
  }

  datatype Target = Plain(path: string) | Asked(path: string, query: Query)
  {
    function Text(): string { if Plain? then path else path + "?" + query.Text() }

    predicate Ok() { '?' !in path && (Asked? ==> query.Ok()) }

    function Params(): seq<Param> { if Plain? then [] else query.All() }
  }

  lemma QueryIsRead(q: Query)
    requires q.Ok()
    ensures QueryOf(AddParams(map[], Pieces(q.Text(), '&')), q.All())
  {
    QueryPieces(q.params, q.last);
    QueryOfAll(map[], [], q.All());
    assert [] + q.All() == q.All();
  }

  lemma AskedIsSet(r: Request, path: string, text: string)
    requires '?' !in path
    ensures SetTarget(r, path + "?" + text) == r.(path := path, query := AddParams(r.query, Pieces(text, '&')))
    ensures SetTarget(r, path) == r.(path := path)
  {
    FindIs(path, '?', text);
    var target := path + "?" + text;
    assert target[..|path|] == path && target[|path| + 1..] == text;
  }

  lemma TargetIsSet(r: Request, t: Target)
    requires t.Ok() && r.query == map[]
    ensures var s := SetTarget(r, t.Text());
      s.path == t.path && QueryOf(s.query, t.Params()) && s == r.(path := s.path, query := s.query)
  {
    if t.Plain? {
      AskedIsSet(r, t.path, "");
    } else {
      AskedIsSet(r, t.path, t.query.Text());
      QueryIsRead(t.query);
    }
  }

  // ------------------------------------------------------------------ the request line

  /** Three words in white space; what follows the third after more white space is ignored. */
  datatype Start = Start(
    lead: string, verb: string, gap: string, target: Target, space: string, protocol: string, trail: string)
  {
    function Text(): string { lead + (verb + (gap + (target.Text() + (space + (protocol + trail))))) }

    predicate Ok() {
      && AllSpaces(lead) && AllSpaces(gap) && gap != "" && AllSpaces(space) && space != "" && EndsWord(trail)
      && IsWord(verb) && IsWord(target.Text()) && target.Ok() && IsWord(protocol)
    }
  }

  /** The core and the request after a request line. */
  ghost predicate Started(d: Core, c: Core, s: Start) {
    && InCapitals(d.request.method_, s.verb)
    && d.request.path == s.target.path && QueryOf(d.request.query, s.target.Params())
    && d.request.headers == c.request.headers && d.request.body == c.request.body
    && d.bodyRead == c.bodyRead && d.bodyExpected == c.bodyExpected && d.chunked == c.chunked
  }

  lemma {:induction false} ThreeWords(s: Start)
    requires s.Ok()
    ensures var (verb, rest1) := NextWord(s.Text());
            var (target, rest2) := NextWord(rest1);
            verb == s.verb && target == s.target.Text() && NextWord(rest2).0 == s.protocol
  {
    var rest2 := s.space + (s.protocol + s.trail);
    var rest1 := s.gap + (s.target.Text() + rest2);
    NextWordIs(s.lead, s.verb, rest1);
    NextWordIs(s.gap, s.target.Text(), rest2);
    NextWordIs(s.space, s.protocol, s.trail);
  }

  /** The request line gives the method in capitals, the path and the query; only HTTP/1.1 and 1.0 go on. */
  lemma RequestLineMeans(c: Core, s: Start)
    requires s.Ok() && c.request.query == map[]
    ensures var d := TakeRequestLine(c, s.Text());
      && Started(d, c, s)
      && (if s.protocol == "HTTP/1.1" || s.protocol == "HTTP/1.0" then d.mode.AtHeaders? && d.error == c.error
          else d.mode.Failed? && d.error == "Unsupported HTTP protocol version")
  {
    ThreeWords(s);
    UpperIsCapitals(s.verb);
    TargetIsSet(c.request.(method_ := MapChars(Upper, s.verb)), s.target);
  }

  /** At most two words in white space. */
  predicate TooFewWords(line: string, lead: string, verb: string, gap: string, target: string, trail: string) {
    && line == lead + (verb + (gap + (target + trail)))
    && AllSpaces(lead) && AllSpaces(gap) && AllSpaces(trail)
    && (IsWord(verb) || (verb == "" && gap == "" && target == "" && trail == ""))
    && ((IsWord(target) && gap != "") || (target == "" && trail == ""))
  }

  lemma ShortRequestLine(c: Core, line: string, lead: string, verb: string, gap: string, target: string, trail: string)
    requires TooFewWords(line, lead, verb, gap, target, trail)
    ensures TakeRequestLine(c, line) == c.(mode := Failed, error := "Invalid request line format")
  {
    var rest1 := gap + (target + trail);
    if verb == "" {
      assert line == lead;
      NoWord(lead);
      NoWord("");
    } else {
      assert EndsWord(rest1);
      NextWordIs(lead, verb, rest1);
      if target == "" {
        assert rest1 == gap;
        NoWord(gap);
        NoWord("");
      } else {
        NextWordIs(gap, target, trail);
        NoWord(trail);
      }
    }
  }

  // ------------------------------------------------------------------ every line has one of these forms

  lemma CutAt(s: string, c: char) returns (a: string, rest: string)
    requires c in s
    ensures s == a + [c] + rest && c !in a
  {
    var k :| 0 <= k < |s| && s[k] == c;
    var i := Find(s, c);
    assert i <= k;
    a, rest := s[..i], s[i + 1..];
    assert forall k :: 0 <= k < i ==> a[k] != c;
    assert s == a + [c] + rest;
  }

  lemma ParamForm(s: string) returns (p: Param)
    requires '&' !in s
    ensures p.Ok() && p.Text() == s
  {
    if '=' in s {
      var key, value := CutAt(s, '=');
      p := Pair(key, value);
      assert forall c :: c in key || c in value ==> c in s;
    } else {
      p := Flag(s);
    }
  }

  lemma {:induction false} QueryForm(s: string) returns (q: Query)
    ensures q.Ok() && q.Text() == s
    decreases |s|
  {
    if '&' in s {
      var first, rest := CutAt(s, '&');
      var p := ParamForm(first);
      var others := QueryForm(rest);
      q := Query([p] + others.params, others.last);
      assert ([p] + others.params)[1..] == others.params;
      ClosedFirst(p.Text(), Closed(others.params), others.last.Text());
    } else {
      var last := ParamForm(s);
      q := Query([], last);
      assert "" + last.Text() == last.Text();
    }
  }

  lemma TargetForm(s: string) returns (t: Target)
    ensures t.Ok() && t.Text() == s
  {
    if '?' in s {
      var path, rest := CutAt(s, '?');
      var query := QueryForm(rest);
      t := Asked(path, query);
    } else {
      t := Plain(s);
    }
  }

  /** Every line has at most two words, or three that `RequestLineMeans` speaks of. */
  lemma EveryRequestLine(line: string) returns (s: Start)
    ensures TooFewWords(line, s.lead, s.verb, s.gap, s.target.Text(), s.space) || (s.Ok() && s.Text() == line)
  {
    var lead, verb, rest1 := WordForm(line);
    var gap, word, rest2 := WordForm(rest1);
    var space, protocol, trail := WordForm(rest2);
    var target := TargetForm(word);
    s := Start(lead, verb, gap, target, space, protocol, trail);
    if protocol == "" {
      assert rest2 == space;
    }
  }

  // ------------------------------------------------------------------ the order of std::map

  /** `a` is a proper beginning of `b`, or has the smaller character where they differ first. */
  lemma {:induction false} LessMeans(a: string, b: string)
    ensures Less(a, b) <==> exists k: nat :: FirstDifference(a, b, k)
  {
    if a == "" || b == "" {
      if a == "" && b != "" { assert FirstDifference(a, b, 0); }
    } else if a[0] < b[0] {
      assert FirstDifference(a, b, 0);
    } else if a[0] == b[0] {
      LessMeans(a[1..], b[1..]);
      if Less(a, b) {
        var k: nat :| FirstDifference(a[1..], b[1..], k);
        assert a == [a[0]] + a[1..] && b == [b[0]] + b[1..];
        assert FirstDifference(a, b, k + 1);
      }
      if k: nat :| FirstDifference(a, b, k) {
        DifferenceLater(a, b, k);
      }
    }
  }

  lemma DifferenceLater(a: string, b: string, k: nat)
    requires FirstDifference(a, b, k) && a != "" && a[0] == b[0]
    ensures k > 0 && FirstDifference(a[1..], b[1..], k - 1)
  {
    if k > 0 {
      assert a[1..][..k - 1] == a[..k][1..] && b[1..][..k - 1] == b[..k][1..];
    }
  }

  predicate FirstDifference(a: string, b: string, k: nat) {
    k <= |a| && k < |b| && a[..k] == b[..k] && (k == |a| || a[k] < b[k])
  }

  lemma {:induction false} LessTrichotomy(a: string, b: string)
    ensures Less(a, b) || a == b || Less(b, a)
    ensures !(Less(a, b) && (a == b || Less(b, a)))
  {
    if a != "" && b != "" && a[0] == b[0] {
      LessTrichotomy(a[1..], b[1..]);
      assert a == [a[0]] + a[1..] && b == [b[0]] + b[1..];
    }
  }

  lemma {:induction false} LessTransitive(a: string, b: string, c: string)
    requires Less(a, b) && Less(b, c)
    ensures Less(a, c)
  {
    if a != "" && a[0] == b[0] && b[0] == c[0] {
      LessTransitive(a[1..], b[1..], c[1..]);
    }
  }

  predicate Sorted(fs: Fields) {
    forall i, j :: 0 <= i < j < |fs| ==> Less(fs[i].0, fs[j].0)
  }

  lemma KeyIsNew(fs: Fields, key: string, f: (string, string))
    requires Sorted(fs) && f in fs && (fs == [] || Less(key, fs[0].0))
    ensures Less(key, f.0) && f.0 != key
  {
    var i :| 0 <= i < |fs| && fs[i] == f;
    if i > 0 { LessTransitive(key, fs[0].0, f.0); }
    LessTrichotomy(key, f.0);
  }

  lemma TailSorted(fs: Fields)
    requires Sorted(fs) && fs != []
    ensures Sorted(fs[1..])
    ensures forall f :: f in fs[1..] ==> Less(fs[0].0, f.0) && f.0 != fs[0].0
  {
    forall f | f in fs[1..] ensures Less(fs[0].0, f.0) && f.0 != fs[0].0 {
      var i :| 0 <= i < |fs[1..]| && fs[1..][i] == f;
      LessTrichotomy(fs[0].0, f.0);
    }
  }

  lemma PrependSorted(f: (string, string), fs: Fields)
    requires Sorted(fs) && forall g :: g in fs ==> Less(f.0, g.0)
    ensures Sorted([f] + fs)
  {
  }

  /** `headers[key] = value`: this pair, and every pair with another key, in order. */
  lemma {:induction false} SetFieldMeans(fs: Fields, key: string, value: string)
    requires Sorted(fs)
    ensures Sorted(SetField(fs, key, value))
    ensures forall f :: f in SetField(fs, key, value) <==> f == (key, value) || (f in fs && f.0 != key)
  {
    if fs == [] || Less(key, fs[0].0) {
      forall f | f in fs ensures Less(key, f.0) && f.0 != key { KeyIsNew(fs, key, f); }
      PrependSorted((key, value), fs);
    } else {
      var head, tail := fs[0], fs[1..];
      TailSorted(fs);
      assert fs == [head] + tail;
      if head.0 == key {
        PrependSorted((key, value), tail);
      } else {
        SetFieldMeans(tail, key, value);
        LessTrichotomy(head.0, key);
        PrependSorted(head, SetField(tail, key, value));
      }
    }
  }

  // ------------------------------------------------------------------ the header lines

  datatype Field = Field(name: string, before: string, value: string, after: string)
  {
    function Text(): string { name + ":" + (before + (value + after)) }

    /** No colon in the name, blanks around the value, none at its ends. */
    predicate Ok() {
      && ':' !in name && Blank(before) && Blank(after)
      && (value != "" ==> !IsBlank(value[0]) && !IsBlank(value[|value| - 1]))
    }
  }

  predicate IsBlank(c: char) { c == ' ' || c == '\t' }

  predicate Blank(s: string) { forall k :: 0 <= k < |s| ==> IsBlank(s[k]) }

  lemma {:induction false} TrimLeftIs(pad: string, s: string)
    requires Blank(pad) && (s == "" || !IsBlank(s[0]))
    ensures TrimLeft(pad + s) == s
  {
    if pad == "" {
      assert pad + s == s;
    } else {
      TrimLeftIs(pad[1..], s);
      assert (pad + s)[1..] == pad[1..] + s;
    }
  }

  lemma {:induction false} TrimRightIs(s: string, pad: string)
    requires Blank(pad) && (s == "" || !IsBlank(s[|s| - 1]))
    ensures TrimRight(s + pad) == s
  {
    if pad == "" {
      assert s + pad == s;
    } else {
      TrimRightIs(s, pad[..|pad| - 1]);
      assert (s + pad)[..|s + pad| - 1] == s + pad[..|pad| - 1];
    }
  }

  lemma {:induction false} AllTrimmed(pad: string)
    requires Blank(pad)
    ensures TrimLeft(pad) == ""
  {
    TrimLeftIs(pad, "");
    assert pad + "" == pad;
  }

  lemma TrimmedIs(before: string, value: string, after: string)
    requires Blank(before) && Blank(after)
    requires value != "" ==> !IsBlank(value[0]) && !IsBlank(value[|value| - 1])
    ensures TrimRight(TrimLeft(before + (value + after))) == value
  {
    if value == "" {
      assert before + (value + after) == before + after;
      AllTrimmed(before + after);
    } else {
      TrimLeftIs(before, value + after);
      TrimRightIs(value, after);
    }
  }

  lemma HeaderIsTaken(c: Core, f: Field)
    requires f.Ok()
    ensures TakeHeader(c, f.Text())
         == c.(request := c.request.(headers := SetField(c.request.headers, f.name, f.value)))
  {
    var rest := f.before + (f.value + f.after);
    FindIs(f.name, ':', rest);
    assert f.Text()[..|f.name|] == f.name && f.Text()[|f.name| + 1..] == rest;
    TrimmedIs(f.before, f.value, f.after);
  }

  lemma NoColon(c: Core, line: string)
    requires ':' !in line
    ensures TakeHeader(c, line) == c.(mode := Failed, error := "Invalid header format (missing colon)")
  {
    FindIs(line, ':', "");
  }

  lemma {:induction false} BlanksBefore(s: string) returns (pad: string, rest: string)
    ensures Blank(pad) && s == pad + rest && (rest == "" || !IsBlank(rest[0]))
  {
    pad, rest := "", s;
    if s != "" && IsBlank(s[0]) {
      var more, r := BlanksBefore(s[1..]);
      pad, rest := [s[0]] + more, r;
    }
  }

  lemma {:induction false} BlanksAfter(s: string) returns (rest: string, pad: string)
    ensures Blank(pad) && s == rest + pad && (rest == "" || !IsBlank(rest[|rest| - 1]))
  {
    rest, pad := s, "";
    if s != "" && IsBlank(s[|s| - 1]) {
      var r, more := BlanksAfter(s[..|s| - 1]);
      rest, pad := r, more + [s[|s| - 1]];
    }
  }

  /** Every header line with a colon is one that `HeaderIsTaken` speaks of. */
  lemma EveryHeaderLine(line: string) returns (f: Field)
    requires ':' in line
    ensures f.Ok() && f.Text() == line
  {
    var name, rest := CutAt(line, ':');
    var before, inner := BlanksBefore(rest);
    var value, after := BlanksAfter(inner);
    f := Field(name, before, value, after);
    assert value != "" ==> value[0] == inner[0];
  }

  /** Field `i` is the last one with its name. */
  predicate LastField(fields: seq<Field>, i: nat) {
    i < |fields| && forall j :: i < j < |fields| ==> fields[j].name != fields[i].name
  }

  /** This name and this value were given, and the name not again. */
  ghost predicate Given(fields: seq<Field>, f: (string, string)) {
    exists i: nat :: LastField(fields, i) && f == (fields[i].name, fields[i].value)
  }

  /** The headers are sorted by name and hold the last value of every name, and nothing else. */
  ghost predicate HeadersOf(fs: Fields, fields: seq<Field>) {
    Sorted(fs) && forall f :: f in fs <==> Given(fields, f)
  }

  lemma GivenOneMore(fields: seq<Field>, last: Field, f: (string, string))
    ensures Given(fields + [last], f) <==>
            f == (last.name, last.value) || (Given(fields, f) && f.0 != last.name)
  {
    var all := fields + [last];
    assert all[|fields|] == last && forall j :: 0 <= j < |fields| ==> all[j] == fields[j];
    if f == (last.name, last.value) {
      assert LastField(all, |fields|);
    }
    if Given(fields, f) && f.0 != last.name {
      var i: nat :| LastField(fields, i) && f == (fields[i].name, fields[i].value);
      assert LastField(all, i);
    }
    if Given(all, f) {
      var i: nat :| LastField(all, i) && f == (all[i].name, all[i].value);
      if i < |fields| { assert LastField(fields, i); }
    }
  }

  lemma HeadersOfOneMore(fs: Fields, done: seq<Field>, f: Field)
    requires HeadersOf(fs, done)
    ensures HeadersOf(SetField(fs, f.name, f.value), done + [f])
  {
    SetFieldMeans(fs, f.name, f.value);
    forall g ensures g in SetField(fs, f.name, f.value) <==> Given(done + [f], g) { GivenOneMore(done, f, g); }
  }

  // ------------------------------------------------------------------ looking a header up

  /** `getHeader`: the value of the first field whose name differs in case at most; nothing when there is none. */
  lemma {:induction false} GetFieldMeans(fs: Fields, key: string)
    ensures var v := GetField(fs, key);
      || (exists i :: FirstOfName(fs, key, i) && v == fs[i].1)
      || (v == "" && forall i :: 0 <= i < |fs| ==> !SameName(fs[i].0, key))
  {
    if fs != [] {
      LowerIsSameName(fs[0].0, key);
      GetFieldMeans(fs[1..], key);
      assert forall i :: 1 <= i < |fs| ==> fs[i] == fs[1..][i - 1];
      if SameName(fs[0].0, key) {
        assert FirstOfName(fs, key, 0);
      } else if i :| FirstOfName(fs[1..], key, i) && GetField(fs, key) == fs[1..][i].1 {
        assert FirstOfName(fs, key, i + 1);
      }
    }
  }

  predicate FirstOfName(fs: Fields, key: string, i: int) {
    0 <= i < |fs| && SameName(fs[i].0, key) && forall j :: 0 <= j < i ==> !SameName(fs[j].0, key)
  }

  /** No field has this name, in whatever case. */
  predicate Without(fields: seq<Field>, key: string) {
    forall i :: 0 <= i < |fields| ==> !SameName(fields[i].name, key)
  }

  /** A field has this name, in whatever case, and every such field this value. */
  predicate Says(fields: seq<Field>, key: string, value: string) {
    && (exists i :: 0 <= i < |fields| && SameName(fields[i].name, key))
    && (forall i :: 0 <= i < |fields| && SameName(fields[i].name, key) ==> fields[i].value == value)
  }

  lemma NotFound(fs: Fields, fields: seq<Field>, key: string)
    requires HeadersOf(fs, fields) && Without(fields, key)
    ensures GetField(fs, key) == ""
  {
    forall i | 0 <= i < |fs| ensures !SameName(fs[i].0, key) {
      assert Given(fields, fs[i]);
    }
    GetFieldMeans(fs, key);
  }

  lemma {:induction false} LastOne(fields: seq<Field>, i: nat) returns (k: nat)
    requires i < |fields|
    ensures LastField(fields, k) && fields[k].name == fields[i].name
    decreases |fields| - i
  {
    k := i;
    if !LastField(fields, i) {
      var j :| i < j < |fields| && fields[j].name == fields[i].name;
      k := LastOne(fields, j);
    }
  }

  lemma IsFound(fs: Fields, fields: seq<Field>, key: string, value: string)
    requires HeadersOf(fs, fields) && Says(fields, key, value)
    ensures GetField(fs, key) == value
  {
    GetFieldMeans(fs, key);
    var i :| 0 <= i < |fields| && SameName(fields[i].name, key);
    var k := LastOne(fields, i);
    assert Given(fields, (fields[k].name, fields[k].value));
    var at :| 0 <= at < |fs| && fs[at] == (fields[k].name, fields[k].value);
    assert SameName(fs[at].0, key);
    var first :| FirstOfName(fs, key, first) && GetField(fs, key) == fs[first].1;
    assert Given(fields, fs[first]);
  }

  // ------------------------------------------------------------------ the blank line

  lemma {:induction false} ContainsMeans(s: string, t: string)
    ensures Contains(s, t) <==> exists k: nat :: OccursAt(s, t, k)
  {
    if t <= s {
      assert OccursAt(s, t, 0);
    } else if s != "" {
      ContainsMeans(s[1..], t);
      if k: nat :| OccursAt(s[1..], t, k) { assert OccursAt(s, t, k + 1); }
      if k: nat :| OccursAt(s, t, k) { assert k > 0 && OccursAt(s[1..], t, k - 1); }
    }
  }

  predicate OccursAt(s: string, t: string, k: nat) {
    k + |t| <= |s| && s[k..k + |t|] == t
  }

  /** A coding that mentions `chunked` announces chunks, whatever the length says. */
  lemma ChunkedBody(c: Core, coding: string, length: string, k: nat)
    requires OccursAt(coding, "chunked", k)
    ensures Framed(c, coding, length) == c.(mode := AtBody, chunked := true, bodyExpected := 0)
  {
    ContainsMeans(coding, "chunked");
  }

  /** Any other coding means no body, whatever the length says. */
  lemma OtherCoding(c: Core, coding: string, length: string)
    requires coding != "" && (forall k: nat :: !OccursAt(coding, "chunked", k)) && c.bodyExpected == 0 && !c.chunked
    ensures Framed(c, coding, length) == c.(mode := Complete)
  {
    ContainsMeans(coding, "chunked");
  }

  lemma SizedBody(c: Core, n: nat)
    requires n < TWO_64 && !c.chunked
    ensures Framed(c, "", Digits(n)) == c.(bodyExpected := n, mode := if n == 0 then Complete else AtBody)
  {
    DecimalReadsBack(n);
    DigitsReadBack(n);
  }

  lemma NoLength(c: Core, length: string)
    requires c.bodyExpected == 0 && !c.chunked
    requires length == "" || (!IsSpace(length[0]) && length[0] != '-' && length[0] != '+' && !('0' <= length[0] <= '9'))
    ensures Framed(c, "", length) == c.(mode := Complete)
  {
    if length != "" {
      NoNumber(length, 10);
    }
  }
}
