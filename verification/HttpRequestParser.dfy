/**
 The incremental HTTP/1.1 request parser: what each `feed` does to the parser's fields, and the
 class that does it in place.
 */
module HttpParsing {
  import opened Options
  import opened Text

  const CRLF: string := "\r\n"

  /** A `std::map<std::string, std::string>`: sorted by key. */
  type Fields = seq<(string, string)>

  datatype Request = Request(
    method_: string, path: string, query: map<string, string>, headers: Fields, body: string)

  datatype Mode = AtRequestLine | AtHeaders | AtBody | Complete | Failed

  /** Everything the parser holds but its buffer of unread bytes. */
  datatype Core = Core(
    mode: Mode, error: string, request: Request, bodyRead: nat, bodyExpected: nat, chunked: bool)
  {
    function Fail(why: string): Core { this.(mode := Failed, error := why) }

    function AddBody(data: string): Core { this.(request := request.(body := request.body + data)) }
  }

  datatype Parser = Parser(core: Core, buffer: string)
  {
    function Append(data: string): Parser { this.(buffer := buffer + data) }
  }

  const EMPTY_REQUEST := Request("", "", map[], [], "")
  const FRESH := Parser(Core(AtRequestLine, "", EMPTY_REQUEST, 0, 0, false), "")

  /**
   What the parser does with a line once it has one. The framing below is proved for any such
   rules; `HTTP` are the ones of the code.
   */
  datatype Rules = Rules(
    requestLine: (Core, string) -> Core,
    header: (Core, string) -> Core,
    endHeaders: Core -> Core,
    chunkSize: string -> Option<nat>)

  const HTTP := Rules(TakeRequestLine, TakeHeader, EndHeaders, ChunkSize)

  // ------------------------------------------------------------------ strings

  predicate CrlfAt(s: string, k: nat) {
    k + 1 < |s| && s[k] == '\r' && s[k + 1] == '\n'
  }

  /** `find("\r\n")`: the first index, or the length when there is none. */
  function FindCrlf(s: string): (i: nat)
    ensures i == |s| || CrlfAt(s, i)
    ensures forall k :: 0 <= k < i ==> !CrlfAt(s, k)
  {
    if |s| < 2 then |s|
    else if s[0] == '\r' && s[1] == '\n' then 0
    else
      assert forall k :: 1 <= k < |s| ==> CrlfAt(s, k) == CrlfAt(s[1..], k - 1);
      1 + FindCrlf(s[1..])
  }

  function Upper(c: char): char {
    if 'a' <= c <= 'z' then (c as int - 32) as char else c
  }

  function Lower(c: char): char {
    if 'A' <= c <= 'Z' then (c as int + 32) as char else c
  }

  function MapChars(f: char -> char, s: string): string {
    if s == "" then "" else [f(s[0])] + MapChars(f, s[1..])
  }

  /** `std::string::operator<`. */
  predicate Less(a: string, b: string) {
    if a == "" then b != ""
    else if b == "" then false
    else a[0] < b[0] || (a[0] == b[0] && Less(a[1..], b[1..]))
  }

  /** `headers[key] = value`. */
  function SetField(fs: Fields, key: string, value: string): Fields {
    if fs == [] || Less(key, fs[0].0) then [(key, value)] + fs
    else if fs[0].0 == key then [(key, value)] + fs[1..]
    else [fs[0]] + SetField(fs[1..], key, value)
  }

  /** `HttpRequest::getHeader`: the first key equal up to case, in map order. */
  function GetField(fs: Fields, key: string): string {
    if fs == [] then ""
    else if MapChars(Lower, fs[0].0) == MapChars(Lower, key) then fs[0].1
    else GetField(fs[1..], key)
  }

  predicate Contains(s: string, t: string) {
    t <= s || (s != "" && Contains(s[1..], t))
  }

  function TrimLeft(s: string): string {
    if s != "" && (s[0] == ' ' || s[0] == '\t') then TrimLeft(s[1..]) else s
  }

  function TrimRight(s: string): string {
    if s != "" && (s[|s| - 1] == ' ' || s[|s| - 1] == '\t') then TrimRight(s[..|s| - 1]) else s
  }

  // ------------------------------------------------------------------ request line

  function AddParam(m: map<string, string>, param: string): map<string, string> {
    var eq := Find(param, '=');
    if eq < |param| then m[param[..eq] := param[eq + 1..]] else m[param := ""]
  }

  function AddParams(m: map<string, string>, params: seq<string>): map<string, string>
    decreases |params|
  {
    if params == [] then m else AddParams(AddParam(m, params[0]), params[1..])
  }

  /** `_request.path` and `_request.queryParams` from the target of the request line. */
  function SetTarget(r: Request, target: string): Request {
    var q := Find(target, '?');
    if q < |target| then r.(path := target[..q], query := AddParams(r.query, Pieces(target[q + 1..], '&')))
    else r.(path := target)
  }

  /** The next whitespace-separated word and what follows it. */
  function NextWord(s: string): (string, string) {
    var t := SkipSpaces(s);
    (t[..WordLength(t)], t[WordLength(t)..])
  }

  /** The last check of the request line. */
  function CheckProtocol(c: Core, protocol: string): (d: Core)
    ensures d.mode.AtHeaders? || d.mode.Failed?
  {
    if protocol != "HTTP/1.1" && protocol != "HTTP/1.0" then c.Fail("Unsupported HTTP protocol version")
    else c.(mode := AtHeaders)
  }

  /** `_parseRequestLine`, given the line. */
  function TakeRequestLine(c: Core, line: string): (d: Core)
    ensures d.mode.AtHeaders? || d.mode.Failed?
  {
    var (verb, rest1) := NextWord(line);
    var (target, rest2) := NextWord(rest1);
    var (protocol, _) := NextWord(rest2);
    if protocol == "" then c.Fail("Invalid request line format")
    else CheckProtocol(c.(request := SetTarget(c.request.(method_ := MapChars(Upper, verb)), target)), protocol)
  }

  // ------------------------------------------------------------------ header lines

  /** How the two framing headers say the body comes. */
  function Framed(c: Core, coding: string, length: string): Core {
    var d :=
      if coding != "" then
        if Contains(coding, "chunked") then c.(chunked := true, bodyExpected := 0) else c
      else if length != "" then
        c.(bodyExpected := match Stoul(length, 10) case Some(n) => n case None => 0)
      else c;
    if d.bodyExpected == 0 && !d.chunked then d.(mode := Complete) else d.(mode := AtBody)
  }

  /** The blank line. */
  function EndHeaders(c: Core): Core {
    Framed(c, GetField(c.request.headers, "Transfer-Encoding"), GetField(c.request.headers, "Content-Length"))
  }

  function TakeHeader(c: Core, line: string): Core {
    var colon := Find(line, ':');
    if colon == |line| then c.Fail("Invalid header format (missing colon)")
    else c.(request := c.request.(headers :=
                  SetField(c.request.headers, line[..colon], TrimRight(TrimLeft(line[colon + 1..])))))
  }

  function ChunkSize(line: string): Option<nat> { Stoul(line, 16) }

  // ------------------------------------------------------------------ framing

  function ParseRequestLine(rules: Rules, p: Parser): Parser {
    var i := FindCrlf(p.buffer);
    if i == |p.buffer| then p
    else Parser(rules.requestLine(p.core, p.buffer[..i]), p.buffer[i + 2..])
  }

  /** One turn of the header loop. */
  datatype HeaderStep =
    | NoLine                  // no complete line yet
    | Over(p: Parser)         // the blank line, or a bad header
    | Onward(p: Parser)       // one header consumed

  function HeaderTurn(rules: Rules, p: Parser): (turn: HeaderStep)
    ensures turn.Onward? ==> |turn.p.buffer| < |p.buffer|
  {
    var i := FindCrlf(p.buffer);
    if i == |p.buffer| then NoLine
    else if i == 0 then Over(Parser(rules.endHeaders(p.core), p.buffer[2..]))
    else
      var q := Parser(rules.header(p.core, p.buffer[..i]), p.buffer[i + 2..]);
      if q.core.mode.Failed? then Over(q) else Onward(q)
  }

  /** `_parseHeaders`. */
  function ParseHeaders(rules: Rules, p: Parser): Parser
    decreases |p.buffer|
  {
    match HeaderTurn(rules, p)
    case NoLine => p
    case Over(q) => q
    case Onward(q) => ParseHeaders(rules, q)
  }

  /** `_parseBody` with a Content-Length: take what is there, at most what is still needed. */
  function ParseSized(p: Parser): Parser {
    var c := p.core;
    if c.bodyRead >= c.bodyExpected then p
    else
      var needed := c.bodyExpected - c.bodyRead;
      var take := if |p.buffer| >= needed then needed else |p.buffer|;
      var d := c.AddBody(p.buffer[..take]).(bodyRead := c.bodyRead + take);
      Parser(if take == needed then d.(mode := Complete) else d, p.buffer[take..])
  }

  /** `chunkSize + 2` in a 64-bit `unsigned long`. */
  function WithCrlf(size: nat): nat {
    if size + 2 < TWO_64 then size + 2 else size + 2 - TWO_64
  }

  /** `_buffer.substr(0, size)`. */
  function Prefix(s: string, size: nat): string {
    if size <= |s| then s[..size] else s
  }

  /** One turn of the chunk loop. */
  datatype Turn =
    | Wait                    // no complete size line yet
    | Stop(p: Parser)         // last chunk, or a size that does not parse
    | Starve(p: Parser)       // returns with the size line erased and its chunk not there yet
    | Next(p: Parser)         // one chunk consumed

  function ChunkTurn(rules: Rules, p: Parser): (turn: Turn)
    ensures turn.Next? ==> |turn.p.buffer| < |p.buffer|
  {
    var i := FindCrlf(p.buffer);
    if i == |p.buffer| then Wait
    else
      var rest := p.buffer[i + 2..];
      match rules.chunkSize(p.buffer[..i])
      case None => Stop(Parser(p.core.Fail("Invalid chunk size"), rest))
      case Some(size) =>
        if size == 0 then Stop(Parser(p.core.(mode := Complete), rest))
        else if |rest| < WithCrlf(size) then Starve(Parser(p.core, rest))
        else Next(Parser(p.core.AddBody(Prefix(rest, size)), rest[WithCrlf(size)..]))
  }

  /** The chunked branch of `_parseBody`. */
  function ParseChunks(rules: Rules, p: Parser): Parser
    decreases |p.buffer|
  {
    match ChunkTurn(rules, p)
    case Wait => p
    case Stop(q) => q
    case Starve(q) => q
    case Next(q) => ParseChunks(rules, q)
  }

  function ParseBody(rules: Rules, p: Parser): Parser {
    if p.core.chunked then ParseChunks(rules, p) else ParseSized(p)
  }

  /** The parser after the request line and the headers that are complete have been consumed. */
  function Headed(rules: Rules, p: Parser): Parser {
    var q := if p.core.mode.AtRequestLine? then ParseRequestLine(rules, p) else p;
    if q.core.mode.AtHeaders? then ParseHeaders(rules, q) else q
  }

  /** `feed`. */
  function Feed(rules: Rules, p: Parser, data: string): Parser {
    if p.core.mode.Failed? then p
    else
      var q := Headed(rules, p.Append(data));
      if q.core.mode.AtBody? then ParseBody(rules, q) else q
  }

  function FeedAll(rules: Rules, p: Parser, pieces: seq<string>): Parser {
    if pieces == [] then p
    else Feed(rules, FeedAll(rules, p, pieces[..|pieces| - 1]), pieces[|pieces| - 1])
  }

  function Flatten(pieces: seq<string>): string {
    if pieces == [] then "" else Flatten(pieces[..|pieces| - 1]) + pieces[|pieces| - 1]
  }

  /** The parser object: `feed` consumes its buffer in place and computes `Feed` of its rules, `HTTP`. */
  class HttpRequestParser {
    const rules: Rules
    var mode: Mode
    var buffer: string
    var error: string
    var request: Request
    var bodyRead: nat
    var bodyExpected: nat
    var chunked: bool

    function View(): Parser
      reads this
    {
      Parser(Core(mode, error, request, bodyRead, bodyExpected, chunked), buffer)
    }

    constructor ()
      ensures View() == FRESH && rules == HTTP
    {
      rules := HTTP;
      mode, buffer, error, request := AtRequestLine, "", "", EMPTY_REQUEST;
      bodyRead, bodyExpected, chunked := 0, 0, false;
    }

    method Reset()
      modifies this
      ensures View() == FRESH
    {
      mode, buffer, error, request := AtRequestLine, "", "", EMPTY_REQUEST;
      bodyRead, bodyExpected, chunked := 0, 0, false;
    }

    /** Returns the finished request and resets; the unread bytes are dropped with it. */
    method Parse() returns (r: Request)
      modifies this
      ensures old(mode).Complete? ==> r == old(request) && View() == FRESH
      ensures !old(mode).Complete? ==> r == EMPTY_REQUEST && View() == old(View())
    {
      if !mode.Complete? {
        return EMPTY_REQUEST;
      }
      r := request;
      Reset();
    }

    method FeedBytes(data: string)
      modifies this
      ensures View() == Feed(rules, old(View()), data)
    {
      if mode.Failed? {
        return;
      }
      buffer := buffer + data;
      if mode.AtRequestLine? {
        ReadRequestLine();
      }
      if mode.AtHeaders? {
        ReadHeaders();
      }
      if mode.AtBody? {
        if chunked {
          ReadChunks();
        } else {
          ReadSized();
        }
      }
    }

    method SetCore(c: Core)
      modifies this
      ensures View() == Parser(c, old(buffer))
    {
      mode, error, request := c.mode, c.error, c.request;
      bodyRead, bodyExpected, chunked := c.bodyRead, c.bodyExpected, c.chunked;
    }

    method ReadRequestLine()
      modifies this
      ensures View() == ParseRequestLine(rules, old(View()))
    {
      var i := FindCrlf(buffer);
      if i < |buffer| {
        var line := buffer[..i];
        buffer := buffer[i + 2..];
        SetCore(rules.requestLine(View().core, line));
      }
    }

    method ReadHeaders()
      modifies this
      ensures View() == ParseHeaders(rules, old(View()))
    {
      var again := true;
      while again
        invariant again ==> ParseHeaders(rules, View()) == ParseHeaders(rules, old(View()))
        invariant !again ==> View() == ParseHeaders(rules, old(View()))
        decreases again, |buffer|
      {
        again := ReadHeader();
      }
    }

    /** One turn of the loop: returns whether a header was consumed. */
    method ReadHeader() returns (again: bool)
      modifies this
      ensures again == HeaderTurn(rules, old(View())).Onward?
      ensures View() == if HeaderTurn(rules, old(View())).NoLine? then old(View()) else HeaderTurn(rules, old(View())).p
    {
      var i := FindCrlf(buffer);
      if i == |buffer| {
        return false;
      }
      var line := buffer[..i];
      buffer := buffer[i + 2..];
      if line == "" {
        SetCore(rules.endHeaders(View().core));
        return false;
      }
      SetCore(rules.header(View().core, line));
      again := !mode.Failed?;
    }

    method ReadSized()
      modifies this
      ensures View() == ParseSized(old(View()))
    {
      if bodyRead < bodyExpected {
        var needed := bodyExpected - bodyRead;
        if |buffer| >= needed {
          request := request.(body := request.body + buffer[..needed]);
          buffer := buffer[needed..];
          bodyRead := bodyExpected;
          mode := Complete;
        } else {
          assert buffer[..|buffer|] == buffer;
          request := request.(body := request.body + buffer);
          bodyRead := bodyRead + |buffer|;
          buffer := "";
        }
      }
    }

    method ReadChunks()
      modifies this
      ensures View() == ParseChunks(rules, old(View()))
    {
      var again := true;
      while again
        invariant again ==> ParseChunks(rules, View()) == ParseChunks(rules, old(View()))
        invariant !again ==> View() == ParseChunks(rules, old(View()))
        decreases again, |buffer|
      {
        again := ReadChunk();
      }
    }

    /** One turn of the loop: returns whether a chunk was consumed. */
    method ReadChunk() returns (again: bool)
      modifies this
      ensures again == ChunkTurn(rules, old(View())).Next?
      ensures View() == if ChunkTurn(rules, old(View())).Wait? then old(View()) else ChunkTurn(rules, old(View())).p
    {
      var i := FindCrlf(buffer);
      if i == |buffer| {
        return false;
      }
      var size := rules.chunkSize(buffer[..i]);
      buffer := buffer[i + 2..];
      if size.None? {
        mode, error := Failed, "Invalid chunk size";
        return false;
      }
      if size.value == 0 {
        mode := Complete;
        return false;
      }
      if |buffer| < WithCrlf(size.value) {
        return false;
      }
      request := request.(body := request.body + Prefix(buffer, size.value));
      buffer := buffer[WithCrlf(size.value)..];
      again := true;
    }
  }
}
