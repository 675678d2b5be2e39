/**
 Whole requests, from a fresh parser and the text on the wire, however it is cut into pieces: a body of
 a decimal Content-Length, no body, a chunked body, and the texts that are refused.
 */
module HttpRequests {
  import opened Options
  import opened Text
  import opened HttpParsing
  import opened HttpCuts
  import opened HttpChunks
  import opened HttpLines

  // ------------------------------------------------------------------ lines

  ghost predicate OneLine(line: string) { forall k :: 0 <= k < |line| ==> !CrlfAt(line, k) }

  lemma OneLineEnds(line: string)
    requires OneLine(line)
    ensures FindCrlf(line + CRLF) == |line|
  {
    var s := line + CRLF;
    assert CrlfAt(s, |line|);
    forall k | 0 <= k < |line| ensures !CrlfAt(s, k) {
      assert !CrlfAt(line, k);
    }
  }

  function Lines(lines: seq<string>): string {
    if lines == [] then "" else lines[0] + CRLF + Lines(lines[1..])
  }

  /** The core after these header lines, up to the first that fails. */
  function AfterLines(rules: Rules, c: Core, lines: seq<string>): Core
    decreases |lines|
  {
    if lines == [] || !c.mode.AtHeaders? then c else AfterLines(rules, rules.header(c, lines[0]), lines[1..])
  }

  lemma RequestLineIsTaken(rules: Rules, c: Core, line: string, more: string)
    requires OneLine(line)
    ensures ParseRequestLine(rules, Parser(c, line + CRLF + more)) == Parser(rules.requestLine(c, line), more)
  {
    OneLineEnds(line);
    FirstLine(line, more);
  }

  lemma OneHeader(rules: Rules, c: Core, line: string, more: string)
    requires OneLine(line) && line != ""
    ensures var d := rules.header(c, line);
      HeaderTurn(rules, Parser(c, line + CRLF + more))
        == if d.mode.Failed? then Over(Parser(d, more)) else Onward(Parser(d, more))
  {
    OneLineEnds(line);
    FirstLine(line, more);
  }

  lemma BlankLine(rules: Rules, c: Core, more: string)
    ensures ParseHeaders(rules, Parser(c, CRLF + more)) == Parser(rules.endHeaders(c), more)
  {
    OneLineEnds("");
    FirstLine("", more);
    assert "" + CRLF + more == CRLF + more;
  }

  lemma BadLine(rules: Rules, c: Core, line: string, more: string)
    requires OneLine(line) && line != "" && rules.header(c, line).mode.Failed?
    ensures ParseHeaders(rules, Parser(c, line + CRLF + more)) == Parser(rules.header(c, line), more)
  {
    OneHeader(rules, c, line, more);
  }

  /** The header loop takes the lines one after the other and goes on with what follows them. */
  lemma {:induction false} HeaderLinesAreTaken(rules: Rules, c: Core, lines: seq<string>, more: string)
    requires AfterLines(rules, c, lines).mode.AtHeaders?
    requires forall i :: 0 <= i < |lines| ==> OneLine(lines[i]) && lines[i] != ""
    ensures ParseHeaders(rules, Parser(c, Lines(lines) + more))
         == ParseHeaders(rules, Parser(AfterLines(rules, c, lines), more))
    decreases |lines|
  {
    if lines == [] {
      EmptyFirst(more);
    } else {
      var rest := Lines(lines[1..]);
      Assoc(lines[0] + CRLF, rest, more);
      OneHeader(rules, c, lines[0], rest + more);
      HeadersUnfold(rules, Parser(c, lines[0] + CRLF + (rest + more)));
      FailedStays(rules, rules.header(c, lines[0]), lines[1..]);
      HeaderLinesAreTaken(rules, rules.header(c, lines[0]), lines[1..], more);
    }
  }

  lemma FailedStays(rules: Rules, c: Core, lines: seq<string>)
    ensures c.mode.Failed? ==> AfterLines(rules, c, lines) == c
  {
  }

  // ------------------------------------------------------------------ the head of a request

  /** A request line and header fields, as a client writes them. */
  datatype Head = Head(start: Start, fields: seq<Field>)
  {
    /** Without the blank line that ends it. */
    function Text(): string { start.Text() + CRLF + Lines(FieldLines(fields)) }

    ghost predicate Ok() {
      && start.Ok() && OneLine(start.Text())
      && forall i :: 0 <= i < |fields| ==> fields[i].Ok() && OneLine(fields[i].Text())
    }

    predicate Supported() { start.protocol == "HTTP/1.1" || start.protocol == "HTTP/1.0" }
  }

  function FieldLines(fields: seq<Field>): (lines: seq<string>)
    ensures |lines| == |fields| && forall i :: 0 <= i < |fields| ==> lines[i] == fields[i].Text()
  {
    seq(|fields|, i requires 0 <= i < |fields| => fields[i].Text())
  }

  /** The core has read this head, and nothing else. */
  ghost predicate HeadRead(c: Core, h: Head) {
    && InCapitals(c.request.method_, h.start.verb)
    && c.request.path == h.start.target.path && QueryOf(c.request.query, h.start.target.Params())
    && HeadersOf(c.request.headers, h.fields)
    && c.request.body == "" && c.bodyRead == 0 && c.bodyExpected == 0 && !c.chunked
  }

  /** The core with other headers. */
  function WithHeaders(c: Core, fs: Fields): Core {
    c.(request := c.request.(headers := fs))
  }

  lemma FieldIsTaken(c: Core, done: seq<Field>, f: Field)
    requires c.mode.AtHeaders? && f.Ok() && HeadersOf(c.request.headers, done)
    ensures var d := HTTP.header(c, f.Text());
      d == WithHeaders(c, d.request.headers) && HeadersOf(d.request.headers, done + [f])
  {
    HeaderIsTaken(c, f);
    HeadersOfOneMore(c.request.headers, done, f);
  }

  lemma {:induction false} FieldsAreTaken(c: Core, done: seq<Field>, fields: seq<Field>)
    requires c.mode.AtHeaders? && HeadersOf(c.request.headers, done)
    requires forall i :: 0 <= i < |fields| ==> fields[i].Ok()
    ensures var d := AfterLines(HTTP, c, FieldLines(fields));
      d == WithHeaders(c, d.request.headers) && HeadersOf(d.request.headers, done + fields)
    decreases |fields|
  {
    if fields == [] {
      assert done + fields == done;
    } else {
      FieldIsTaken(c, done, fields[0]);
      FieldsAreTaken(HTTP.header(c, fields[0].Text()), done + [fields[0]], fields[1..]);
      assert FieldLines(fields)[1..] == FieldLines(fields[1..]);
      assert done + [fields[0]] + fields[1..] == done + fields;
    }
  }

  lemma StartIsTaken(s: Start)
    requires s.Ok() && (s.protocol == "HTTP/1.1" || s.protocol == "HTTP/1.0")
    ensures var d := HTTP.requestLine(FRESH.core, s.Text());
      d.mode.AtHeaders? && Started(d, FRESH.core, s)
  {
    RequestLineMeans(FRESH.core, s);
  }

  lemma HeadCore(h: Head) returns (c: Core)
    requires h.Ok() && h.Supported()
    ensures var d := HTTP.requestLine(FRESH.core, h.start.Text());
      d.mode.AtHeaders? && c == AfterLines(HTTP, d, FieldLines(h.fields))
    ensures c.mode.AtHeaders? && HeadRead(c, h)
  {
    var d := HTTP.requestLine(FRESH.core, h.start.Text());
    StartIsTaken(h.start);
    FieldsAreTaken(d, [], h.fields);
    assert [] + h.fields == h.fields;
    c := AfterLines(HTTP, d, FieldLines(h.fields));
  }

  lemma FieldNotBlank(f: Field)
    ensures f.Text() != ""
  {
  }

  /** The parser reads the head and comes to what follows it. */
  lemma HeadIsRead(h: Head, more: string) returns (c: Core)
    requires h.Ok() && h.Supported()
    ensures c.mode.AtHeaders? && HeadRead(c, h)
    ensures Headed(HTTP, FRESH.Append(h.Text() + more)) == ParseHeaders(HTTP, Parser(c, more))
  {
    c := HeadCore(h);
    var lines := FieldLines(h.fields);
    Assoc(h.start.Text() + CRLF, Lines(lines), more);
    EmptyFirst(h.start.Text() + CRLF + (Lines(lines) + more));
    RequestLineIsTaken(HTTP, FRESH.core, h.start.Text(), Lines(lines) + more);
    forall i | 0 <= i < |lines| ensures OneLine(lines[i]) && lines[i] != "" { FieldNotBlank(h.fields[i]); }
    HeaderLinesAreTaken(HTTP, HTTP.requestLine(FRESH.core, h.start.Text()), lines, more);
  }

  /** The blank line after the head: the framing headers decide. */
  lemma HeadEnds(h: Head, coding: string, more: string) returns (c: Core, length: string)
    requires h.Ok() && h.Supported() && Reads(h.fields, "Transfer-Encoding", coding)
    ensures c.mode.AtHeaders? && HeadRead(c, h)
    ensures Headed(HTTP, FRESH.Append(h.Text() + (CRLF + more))) == Parser(Framed(c, coding, length), more)
    ensures forall value :: Reads(h.fields, "Content-Length", value) ==> length == value
  {
    c := HeadIsRead(h, CRLF + more);
    BlankLine(HTTP, c, more);
    LookedUp(c.request.headers, h.fields, "Transfer-Encoding", coding);
    length := GetField(c.request.headers, "Content-Length");
    forall value | Reads(h.fields, "Content-Length", value) ensures length == value {
      LookedUp(c.request.headers, h.fields, "Content-Length", value);
    }
  }

  /** Looking the name up yields this value: no field has the name and it is empty, or they all say it. */
  predicate Reads(fields: seq<Field>, key: string, value: string) {
    if value == "" then Without(fields, key) || Says(fields, key, value) else Says(fields, key, value)
  }

  lemma LookedUp(fs: Fields, fields: seq<Field>, key: string, value: string)
    requires HeadersOf(fs, fields) && Reads(fields, key, value)
    ensures GetField(fs, key) == value
  {
    if Without(fields, key) {
      NotFound(fs, fields, key);
    } else {
      IsFound(fs, fields, key, value);
    }
  }

  // ------------------------------------------------------------------ complete requests

  /** The request of this head and body is complete, and these bytes were not needed for it. */
  ghost predicate Decoded(p: Parser, h: Head, body: string, more: string) {
    && p.core.mode.Complete? && p.buffer == more
    && InCapitals(p.core.request.method_, h.start.verb)
    && p.core.request.path == h.start.target.path && QueryOf(p.core.request.query, h.start.target.Params())
    && HeadersOf(p.core.request.headers, h.fields)
    && p.core.request.body == body
  }

  lemma FreshFeed(data: string)
    ensures Feed(HTTP, FRESH, data) == Finish(HTTP, Headed(HTTP, FRESH.Append(data)))
  {
  }

  lemma SizedIsTaken(c: Core, body: string, more: string)
    requires !c.chunked && c.bodyRead == 0 && c.bodyExpected == |body| > 0
    ensures ParseBody(HTTP, Parser(c, body + more))
         == Parser(c.AddBody(body).(bodyRead := |body|, mode := Complete), more)
  {
    assert (body + more)[..|body|] == body && (body + more)[|body|..] == more;
  }

  lemma SizedFeed(h: Head, body: string, more: string)
    requires h.Ok() && h.Supported() && |body| < TWO_64
    requires Reads(h.fields, "Transfer-Encoding", "") && Reads(h.fields, "Content-Length", Digits(|body|))
    ensures var p := Feed(HTTP, FRESH, h.Text() + (CRLF + (body + more))); Decoded(p, h, body, more) && !p.core.chunked
  {
    FreshFeed(h.Text() + (CRLF + (body + more)));
    var c, length := HeadEnds(h, "", body + more);
    assert length == Digits(|body|);
    SizedBody(c, |body|);
    if body == "" {
      EmptyFirst(more);
    } else {
      EmptyFirst(body);
      SizedIsTaken(Framed(c, "", Digits(|body|)), body, more);
    }
  }

  lemma UnchunkedPieces(pieces: seq<string>, whole: string, p: Parser)
    requires pieces != [] && Flatten(pieces) == whole && p == Feed(HTTP, FRESH, whole) && !p.core.chunked
    ensures Same(FeedAll(HTTP, FRESH, pieces), p)
  {
    HttpCutIndependent(pieces);
  }

  /**
   A request with a decimal Content-Length, cut anywhere, is decoded: the method in capitals, the path,
   the parameters, the last value of every header, exactly that many body bytes; the rest is left over.
   */
  lemma SizedRequestDecodes(h: Head, body: string, more: string, pieces: seq<string>)
    requires h.Ok() && h.Supported() && |body| < TWO_64
    requires Without(h.fields, "Transfer-Encoding") && Says(h.fields, "Content-Length", Digits(|body|))
    requires pieces != [] && Flatten(pieces) == h.Text() + (CRLF + (body + more))
    ensures Decoded(FeedAll(HTTP, FRESH, pieces), h, body, more)
  {
    DigitsReadBack(|body|);
    SizedFeed(h, body, more);
    UnchunkedPieces(pieces, h.Text() + (CRLF + (body + more)), Feed(HTTP, FRESH, h.Text() + (CRLF + (body + more))));
  }

  lemma ShortFeed(h: Head, n: nat, part: string)
    requires h.Ok() && h.Supported() && |part| < n < TWO_64
    requires Reads(h.fields, "Transfer-Encoding", "") && Reads(h.fields, "Content-Length", Digits(n))
    ensures var p := Feed(HTTP, FRESH, h.Text() + (CRLF + part));
      p.core.mode.AtBody? && !p.core.chunked && p.core.request.body == part && p.buffer == ""
  {
    FreshFeed(h.Text() + (CRLF + part));
    var c, length := HeadEnds(h, "", part);
    assert length == Digits(n);
    SizedBody(c, n);
    EmptyFirst(part);
    SizedShort(Framed(c, "", Digits(n)), part);
  }

  /** With fewer bytes it waits, and has kept those it got. */
  lemma SizedRequestWaits(h: Head, n: nat, part: string, pieces: seq<string>)
    requires h.Ok() && h.Supported() && |part| < n < TWO_64
    requires Without(h.fields, "Transfer-Encoding") && Says(h.fields, "Content-Length", Digits(n))
    requires pieces != [] && Flatten(pieces) == h.Text() + (CRLF + part)
    ensures var p := FeedAll(HTTP, FRESH, pieces);
      p.core.mode.AtBody? && p.core.request.body == part && p.buffer == ""
  {
    DigitsReadBack(n);
    ShortFeed(h, n, part);
    UnchunkedPieces(pieces, h.Text() + (CRLF + part), Feed(HTTP, FRESH, h.Text() + (CRLF + part)));
  }

  /** A coding other than chunked, or no coding and no length that is a number. */
  ghost predicate NoBody(fields: seq<Field>, coding: string, length: string) {
    || (coding != "" && Says(fields, "Transfer-Encoding", coding) && forall k: nat :: !OccursAt(coding, "chunked", k))
    || (coding == "" && Reads(fields, "Transfer-Encoding", "") && Reads(fields, "Content-Length", length)
        && NotNumeric(length))
  }

  predicate NotNumeric(length: string) {
    length == "" || (!IsSpace(length[0]) && length[0] != '-' && length[0] != '+' && !('0' <= length[0] <= '9'))
  }

  lemma BodilessFeed(h: Head, coding: string, length: string, more: string)
    requires h.Ok() && h.Supported() && NoBody(h.fields, coding, length)
    ensures var p := Feed(HTTP, FRESH, h.Text() + (CRLF + more)); Decoded(p, h, "", more) && !p.core.chunked
  {
    FreshFeed(h.Text() + (CRLF + more));
    var c, l := HeadEnds(h, coding, more);
    if coding != "" {
      OtherCoding(c, coding, l);
    } else {
      assert l == length;
      NoLength(c, length);
    }
  }

  /** Without a body the request is complete at the blank line. */
  lemma BodilessRequestDecodes(h: Head, coding: string, length: string, more: string, pieces: seq<string>)
    requires h.Ok() && h.Supported() && NoBody(h.fields, coding, length)
    requires pieces != [] && Flatten(pieces) == h.Text() + (CRLF + more)
    ensures Decoded(FeedAll(HTTP, FRESH, pieces), h, "", more)
  {
    BodilessFeed(h, coding, length, more);
    UnchunkedPieces(pieces, h.Text() + (CRLF + more), Feed(HTTP, FRESH, h.Text() + (CRLF + more)));
  }

  /** `Transfer-Encoding: chunked`, whatever the length says: the parser waits for chunks. */
  lemma ChunkedHead(h: Head, coding: string, k: nat)
    requires h.Ok() && h.Supported() && OccursAt(coding, "chunked", k) && Says(h.fields, "Transfer-Encoding", coding)
    ensures var q := Headed(HTTP, FRESH.Append(h.Text() + CRLF));
      q.core.mode.AtBody? && q.core.chunked && q.buffer == "" && HeadRead(q.core.(chunked := false), h)
  {
    var c, length := HeadEnds(h, coding, "");
    assert CRLF + "" == CRLF;
    ChunkedBody(c, coding, length, k);
  }

  /** A chunked request is decoded, however the body was split and wherever it may be cut. */
  lemma ChunkedRequestDecodes(h: Head, coding: string, at: nat, parts: seq<string>, more: string,
                              pieces: seq<string>)
    requires h.Ok() && h.Supported() && OccursAt(coding, "chunked", at) && Says(h.fields, "Transfer-Encoding", coding)
    requires forall i :: 0 <= i < |parts| ==> 0 < |parts[i]| && |parts[i]| + 2 < TWO_64
    requires pieces != []
    requires Flatten(pieces) == h.Text() + CRLF + (Encode(StandardChunks(parts)) + (Hex(0) + CRLF + more))
    requires forall k :: 0 < k < |pieces| ==>
               AllowedInRequest(h.Text() + CRLF, StandardChunks(parts), |Flatten(pieces[..k])|)
    ensures Decoded(FeedAll(HTTP, FRESH, pieces), h, Flatten(parts), more)
  {
    ChunkedHead(h, coding, at);
    HttpDecodesRequest(h.Text() + CRLF, parts, more, pieces);
    EmptyFirst(Flatten(parts));
  }

  // ------------------------------------------------------------------ refused texts

  /** The parser has failed with this message. */
  predicate Refused(p: Parser, why: string) { p.core.mode.Failed? && p.core.error == why }

  /** A first line of two words or fewer, however it arrives. */
  lemma ShortLineIsRefused(line: string, lead: string, verb: string, gap: string, target: string, trail: string,
                           more: string, pieces: seq<string>)
    requires OneLine(line) && TooFewWords(line, lead, verb, gap, target, trail)
    requires pieces != [] && Flatten(pieces) == line + CRLF + more
    ensures Refused(FeedAll(HTTP, FRESH, pieces), "Invalid request line format")
  {
    ShortRequestLine(FRESH.core, line, lead, verb, gap, target, trail);
    FirstLineFails(line, more, pieces);
  }

  lemma FirstLineFails(line: string, more: string, pieces: seq<string>)
    requires OneLine(line) && pieces != [] && Flatten(pieces) == line + CRLF + more
    requires var d := HTTP.requestLine(FRESH.core, line); d.mode.Failed? && !d.chunked
    ensures FeedAll(HTTP, FRESH, pieces).core == HTTP.requestLine(FRESH.core, line)
  {
    EmptyFirst(line + CRLF + more);
    RequestLineIsTaken(HTTP, FRESH.core, line, more);
    FreshFeed(line + CRLF + more);
    UnchunkedPieces(pieces, line + CRLF + more, Feed(HTTP, FRESH, line + CRLF + more));
  }

  /** Another protocol. */
  lemma UnsupportedIsRefused(s: Start, more: string, pieces: seq<string>)
    requires s.Ok() && OneLine(s.Text()) && s.protocol != "HTTP/1.1" && s.protocol != "HTTP/1.0"
    requires pieces != [] && Flatten(pieces) == s.Text() + CRLF + more
    ensures Refused(FeedAll(HTTP, FRESH, pieces), "Unsupported HTTP protocol version")
  {
    RequestLineMeans(FRESH.core, s);
    FirstLineFails(s.Text(), more, pieces);
  }

  lemma BadHeaderFeed(h: Head, bad: string, more: string)
    requires h.Ok() && h.Supported() && OneLine(bad) && bad != "" && ':' !in bad
    ensures var p := Feed(HTTP, FRESH, h.Text() + (bad + CRLF + more));
      Refused(p, "Invalid header format (missing colon)") && !p.core.chunked
  {
    FreshFeed(h.Text() + (bad + CRLF + more));
    var c := HeadIsRead(h, bad + CRLF + more);
    NoColon(c, bad);
    BadLine(HTTP, c, bad, more);
  }

  /** A header line without a colon, after any number of good ones. */
  lemma BadHeaderIsRefused(h: Head, bad: string, more: string, pieces: seq<string>)
    requires h.Ok() && h.Supported() && OneLine(bad) && bad != "" && ':' !in bad
    requires pieces != [] && Flatten(pieces) == h.Text() + (bad + CRLF + more)
    ensures Refused(FeedAll(HTTP, FRESH, pieces), "Invalid header format (missing colon)")
  {
    BadHeaderFeed(h, bad, more);
    UnchunkedPieces(pieces, h.Text() + (bad + CRLF + more), Feed(HTTP, FRESH, h.Text() + (bad + CRLF + more)));
  }
}
