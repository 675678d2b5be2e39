/**
 Does the result of parsing depend on how the byte stream is cut into `feed` calls? Not unless a
 cut falls where the chunk loop has erased a size line whose chunk has not arrived yet.
 */
module HttpCuts {
  import opened Options
  import opened Text
  import opened HttpParsing

  /** Equal as far as a caller can see; the leftover buffer of a failed parser is never read again. */
  ghost predicate Same(p: Parser, q: Parser) {
    p.core == q.core && (p.buffer == q.buffer || p.core.mode.Failed?)
  }

  /** The chunk loop, started on `p`, returns with a size line erased and its chunk missing. */
  predicate ChunksStarve(rules: Rules, p: Parser)
    decreases |p.buffer|
  {
    var turn := ChunkTurn(rules, p);
    turn.Starve? || (turn.Next? && ChunksStarve(rules, turn.p))
  }

  /** The size line at the front of the buffer, if there is one, does not make `chunkSize + 2` overflow. */
  predicate SizeFits(rules: Rules, p: Parser) {
    var i := FindCrlf(p.buffer);
    i < |p.buffer| ==>
      var size := rules.chunkSize(p.buffer[..i]);
      size.Some? ==> size.value + 2 < TWO_64
  }

  /** No size line the chunk loop reads does. */
  predicate ChunksFit(rules: Rules, p: Parser)
    decreases |p.buffer|
  {
    var turn := ChunkTurn(rules, p);
    SizeFits(rules, p) && (turn.Next? ==> ChunksFit(rules, turn.p))
  }

  /** `p`, at the start of `_parseBody`, leaves it with nothing forgotten. */
  predicate CutSafe(rules: Rules, p: Parser) {
    p.core.mode.AtBody? && p.core.chunked ==> !ChunksStarve(rules, p) && ChunksFit(rules, p)
  }

  /** Feeding `data` leaves the parser in the middle of a chunk whose size it has forgotten. */
  predicate StopsMidChunk(rules: Rules, p: Parser, data: string) {
    var q := Headed(rules, p.Append(data));
    !p.core.mode.Failed? && q.core.mode.AtBody? && q.core.chunked && ChunksStarve(rules, q)
  }

  predicate SizesFit(rules: Rules, p: Parser, data: string) {
    var q := Headed(rules, p.Append(data));
    !p.core.mode.Failed? && q.core.mode.AtBody? && q.core.chunked ==> ChunksFit(rules, q)
  }

  lemma Splice(a: string, b: string, n: nat)
    requires n <= |a|
    ensures (a + b)[..n] == a[..n]
    ensures (a + b)[n..] == a[n..] + b
  {
  }

  /** Longer input has its first line where shorter input had it. */
  lemma LineStays(a: string, b: string)
    requires FindCrlf(a) < |a|
    ensures FindCrlf(a + b) == FindCrlf(a)
    ensures (a + b)[..FindCrlf(a)] == a[..FindCrlf(a)]
    ensures (a + b)[FindCrlf(a) + 2..] == a[FindCrlf(a) + 2..] + b
  {
    var i := FindCrlf(a);
    assert forall k :: 0 <= k <= i ==> CrlfAt(a + b, k) == CrlfAt(a, k);
    Splice(a, b, i);
    Splice(a, b, i + 2);
  }

  // ------------------------------------------------------------------ body

  lemma FeedLate(rules: Rules, p: Parser, b: string)
    ensures p.core.mode.AtBody? ==> Feed(rules, p, b) == ParseBody(rules, p.Append(b))
    ensures p.core.mode.Complete? ==> Feed(rules, p, b) == p.Append(b)
  {
  }

  lemma SpliceBeyond(a: string, b: string, k: nat)
    requires k <= |b|
    ensures (a + b)[..|a| + k] == a + b[..k]
    ensures (a + b)[|a| + k..] == b[k..]
  {
  }

  /** Less than needed: all of it is taken. */
  lemma SizedShort(c: Core, a: string)
    requires |a| < c.bodyExpected - c.bodyRead
    ensures ParseSized(Parser(c, a)) == Parser(c.AddBody(a).(bodyRead := c.bodyRead + |a|), "")
  {
    assert a[..|a|] == a && a[|a|..] == "";
  }

  /** What is taken from `a + b` is `a` and what would be taken from `b` after it. */
  lemma SizedAppended(c: Core, a: string, b: string)
    requires |a| < c.bodyExpected - c.bodyRead
    ensures ParseSized(Parser(c, a + b)) == ParseSized(Parser(c.AddBody(a).(bodyRead := c.bodyRead + |a|), b))
  {
    var needed := c.bodyExpected - c.bodyRead - |a|;
    var take := if |b| >= needed then needed else |b|;
    SpliceBeyond(a, b, take);
    Assoc(c.request.body, a, b[..take]);
  }

  lemma Assoc(a: string, b: string, c: string)
    ensures a + (b + c) == a + b + c
  {
  }

  lemma NothingBefore(c: Core, b: string)
    ensures Parser(c, "").Append(b) == Parser(c, b)
  {
    assert "" + b == b;
  }

  lemma SizedContinues(p: Parser, b: string)
    requires |p.buffer| < p.core.bodyExpected - p.core.bodyRead
    ensures ParseSized(ParseSized(p).Append(b)) == ParseSized(p.Append(b))
  {
    var c := p.core.AddBody(p.buffer).(bodyRead := p.core.bodyRead + |p.buffer|);
    SizedShort(p.core, p.buffer);
    NothingBefore(c, b);
    SizedAppended(p.core, p.buffer, b);
  }

  lemma SizedTwice(rules: Rules, p: Parser, b: string)
    requires p.core.mode.AtBody? && !p.core.chunked
    ensures Same(Feed(rules, ParseSized(p), b), ParseSized(p.Append(b)))
  {
    var needed := p.core.bodyExpected - p.core.bodyRead;
    FeedLate(rules, ParseSized(p), b);
    if 0 < needed <= |p.buffer| {
      Splice(p.buffer, b, needed);
    } else if 0 < needed {
      SizedContinues(p, b);
    }
  }

  /** A turn that does not starve does the same when more input is already there. */
  lemma TurnStays(rules: Rules, p: Parser, b: string)
    requires SizeFits(rules, p)
    ensures var turn, longer := ChunkTurn(rules, p), ChunkTurn(rules, p.Append(b));
            && (turn.Stop? ==> longer == Stop(turn.p.Append(b)))
            && (turn.Next? ==> longer == Next(turn.p.Append(b)))
  {
    var i := FindCrlf(p.buffer);
    if i < |p.buffer| {
      LineStays(p.buffer, b);
      var rest := p.buffer[i + 2..];
      var size := rules.chunkSize(p.buffer[..i]);
      if size.Some? && size.value + 2 <= |rest| {
        Splice(rest, b, size.value);
        Splice(rest, b, size.value + 2);
      }
    }
  }

  lemma {:induction false} ChunksTwice(rules: Rules, p: Parser, b: string)
    requires p.core.mode.AtBody? && p.core.chunked && !ChunksStarve(rules, p) && ChunksFit(rules, p)
    ensures Same(Feed(rules, ParseChunks(rules, p), b), ParseChunks(rules, p.Append(b)))
    decreases |p.buffer|
  {
    TurnStays(rules, p, b);
    FeedLate(rules, ParseChunks(rules, p), b);
    if ChunkTurn(rules, p).Next? {
      ChunksTwice(rules, ChunkTurn(rules, p).p, b);
    }
  }

  lemma BodyTwice(rules: Rules, p: Parser, b: string)
    requires p.core.mode.AtBody? && CutSafe(rules, p)
    ensures Same(Feed(rules, ParseBody(rules, p), b), ParseBody(rules, p.Append(b)))
  {
    if p.core.chunked {
      ChunksTwice(rules, p, b);
    } else {
      SizedTwice(rules, p, b);
    }
  }

  // ------------------------------------------------------------------ headers and request line

  /** What `feed` does after the headers. */
  function Finish(rules: Rules, p: Parser): Parser {
    if p.core.mode.AtBody? then ParseBody(rules, p) else p
  }

  lemma FinishTwice(rules: Rules, p: Parser, b: string)
    requires CutSafe(rules, p) && !p.core.mode.AtRequestLine? && !p.core.mode.AtHeaders?
    ensures Same(Feed(rules, Finish(rules, p), b), Finish(rules, p.Append(b)))
  {
    FeedLate(rules, p, b);
    if p.core.mode.AtBody? {
      BodyTwice(rules, p, b);
    }
  }

  /**
   The rules move the parser on, never back to the request line or, after the blank line, to the
   headers, and sizes are 64-bit numbers.
   */
  ghost predicate Forward(rules: Rules) {
    && (forall c: Core, line: string :: !rules.requestLine(c, line).mode.AtRequestLine?)
    && (forall c: Core, line: string :: c.mode.AtHeaders? ==>
          rules.header(c, line).mode.AtHeaders? || rules.header(c, line).mode.Failed?)
    && (forall c: Core :: !rules.endHeaders(c).mode.AtRequestLine? && !rules.endHeaders(c).mode.AtHeaders?)
    && (forall line: string :: rules.chunkSize(line).Some? ==> rules.chunkSize(line).value < TWO_64)
  }

  lemma FeedHeaders(rules: Rules, p: Parser, b: string)
    requires p.core.mode.AtHeaders?
    ensures Feed(rules, p, b) == Finish(rules, ParseHeaders(rules, p.Append(b)))
  {
  }

  /** A turn on a complete line does the same when more input is already there. */
  lemma HeaderStays(rules: Rules, p: Parser, b: string)
    ensures var turn, longer := HeaderTurn(rules, p), HeaderTurn(rules, p.Append(b));
            && (turn.Over? ==> longer == Over(turn.p.Append(b)))
            && (turn.Onward? ==> longer == Onward(turn.p.Append(b)))
  {
    if FindCrlf(p.buffer) < |p.buffer| {
      LineStays(p.buffer, b);
    }
  }

  lemma HeaderModes(rules: Rules, p: Parser)
    requires Forward(rules) && p.core.mode.AtHeaders?
    ensures var turn := HeaderTurn(rules, p);
            && (turn.Over? ==> !turn.p.core.mode.AtRequestLine? && !turn.p.core.mode.AtHeaders?)
            && (turn.Onward? ==> turn.p.core.mode.AtHeaders?)
  {
  }

  /** What a turn leaves to the rest of the loop. */
  lemma HeadersUnfold(rules: Rules, p: Parser)
    ensures ParseHeaders(rules, p) == match HeaderTurn(rules, p)
              case NoLine => p
              case Over(q) => q
              case Onward(q) => ParseHeaders(rules, q)
  {
  }

  lemma {:induction false} HeadersTwice(rules: Rules, p: Parser, b: string)
    requires Forward(rules) && p.core.mode.AtHeaders? && CutSafe(rules, ParseHeaders(rules, p))
    ensures Same(Feed(rules, Finish(rules, ParseHeaders(rules, p)), b),
                 Finish(rules, ParseHeaders(rules, p.Append(b))))
    decreases |p.buffer|
  {
    HeaderStays(rules, p, b);
    HeaderModes(rules, p);
    HeadersUnfold(rules, p);
    HeadersUnfold(rules, p.Append(b));
    match HeaderTurn(rules, p)
    case NoLine => FeedHeaders(rules, p, b);
    case Over(q) => FinishTwice(rules, q, b);
    case Onward(q) => HeadersTwice(rules, q, b);
  }

  lemma RequestLineTwice(rules: Rules, q: Parser, b: string)
    requires Forward(rules) && q.core.mode.AtRequestLine? && CutSafe(rules, Headed(rules, q))
    ensures Same(Feed(rules, Finish(rules, Headed(rules, q)), b), Finish(rules, Headed(rules, q.Append(b))))
  {
    var i := FindCrlf(q.buffer);
    if i < |q.buffer| {
      LineStays(q.buffer, b);
      var r := Parser(rules.requestLine(q.core, q.buffer[..i]), q.buffer[i + 2..]);
      if r.core.mode.AtHeaders? {
        HeadersTwice(rules, r, b);
      } else {
        FinishTwice(rules, r, b);
      }
    }
  }

  /**
   Cut independence: feeding `a` and then `b` is the same as feeding `a + b`, whatever the state
   of the parser and whatever the bytes, unless `a` stops in the middle of a chunk.
   */
  lemma CutIndependent(rules: Rules, p: Parser, a: string, b: string)
    requires Forward(rules) && !StopsMidChunk(rules, p, a) && SizesFit(rules, p, a)
    ensures Same(Feed(rules, Feed(rules, p, a), b), Feed(rules, p, a + b))
  {
    if !p.core.mode.Failed? {
      var q := p.Append(a);
      assert p.buffer + (a + b) == p.buffer + a + b;
      match q.core.mode
      case AtRequestLine => RequestLineTwice(rules, q, b);
      case AtHeaders => HeadersTwice(rules, q, b);
      case _ => FinishTwice(rules, q, b);
    }
  }

  lemma SameFeeds(rules: Rules, p: Parser, q: Parser, data: string)
    requires Same(p, q)
    ensures Same(Feed(rules, p, data), Feed(rules, q, data))
  {
  }

  /**
   Any number of cuts: feeding the pieces one by one is the same as one feed of all of them, if no
   piece but the last ends in the middle of a chunk.
   */
  lemma {:induction false} PiecesIndependent(rules: Rules, p: Parser, pieces: seq<string>)
    requires Forward(rules) && pieces != []
    requires forall k :: 0 < k < |pieces| ==>
               !StopsMidChunk(rules, p, Flatten(pieces[..k])) && SizesFit(rules, p, Flatten(pieces[..k]))
    ensures Same(FeedAll(rules, p, pieces), Feed(rules, p, Flatten(pieces)))
    decreases |pieces|
  {
    var front, last := pieces[..|pieces| - 1], pieces[|pieces| - 1];
    if front == [] {
      assert Flatten(pieces) == last;
    } else {
      assert forall k :: 0 < k < |front| ==> front[..k] == pieces[..k];
      PiecesIndependent(rules, p, front);
      SameFeeds(rules, FeedAll(rules, p, front), Feed(rules, p, Flatten(front)), last);
      CutIndependent(rules, p, Flatten(front), last);
    }
  }

  // ------------------------------------------------------------------ requests that are not chunked

  lemma {:induction false} HeadersStay(rules: Rules, p: Parser, b: string)
    requires Forward(rules) && p.core.mode.AtHeaders? && ParseHeaders(rules, p).core.mode.AtBody?
    ensures ParseHeaders(rules, p.Append(b)) == ParseHeaders(rules, p).Append(b)
    decreases |p.buffer|
  {
    HeaderStays(rules, p, b);
    HeaderModes(rules, p);
    HeadersUnfold(rules, p);
    HeadersUnfold(rules, p.Append(b));
    if HeaderTurn(rules, p).Onward? {
      HeadersStay(rules, HeaderTurn(rules, p).p, b);
    }
  }

  /** Once the headers are read, more input only lengthens the buffer. */
  lemma HeadedStays(rules: Rules, p: Parser, b: string)
    requires Forward(rules) && Headed(rules, p).core.mode.AtBody?
    ensures Headed(rules, p.Append(b)) == Headed(rules, p).Append(b)
  {
    if p.core.mode.AtHeaders? {
      HeadersStay(rules, p, b);
    } else if p.core.mode.AtRequestLine? {
      LineStays(p.buffer, b);
      var q := ParseRequestLine(rules, p);
      if q.core.mode.AtHeaders? {
        HeadersStay(rules, q, b);
      }
    }
  }

  lemma {:induction false} ChunkedStays(rules: Rules, p: Parser)
    ensures ParseChunks(rules, p).core.chunked == p.core.chunked
    decreases |p.buffer|
  {
    if ChunkTurn(rules, p).Next? {
      ChunkedStays(rules, ChunkTurn(rules, p).p);
    }
  }

  lemma {:induction false} FlattenSplits(pieces: seq<string>, k: nat)
    requires k <= |pieces|
    ensures Flatten(pieces[..k]) <= Flatten(pieces)
    decreases |pieces|
  {
    if k == |pieces| {
      assert pieces[..k] == pieces;
    } else {
      assert pieces[..|pieces| - 1][..k] == pieces[..k];
      FlattenSplits(pieces[..|pieces| - 1], k);
    }
  }

  /** A prefix of a request that turns out not to be chunked does not end in a chunk. */
  lemma UnchunkedPrefix(rules: Rules, p: Parser, a: string, b: string, whole: string)
    requires Forward(rules) && whole == a + b && !Feed(rules, p, whole).core.chunked
    ensures !StopsMidChunk(rules, p, a) && SizesFit(rules, p, a)
  {
    var q := Headed(rules, p.Append(a));
    if !p.core.mode.Failed? && q.core.mode.AtBody? {
      assert p.buffer + whole == p.buffer + a + b;
      HeadedStays(rules, p.Append(a), b);
      ChunkedStays(rules, q.Append(b));
    }
  }

  lemma RestOf(a: string, whole: string) returns (b: string)
    requires a <= whole
    ensures whole == a + b
  {
    b := whole[|a|..];
  }

  lemma UnchunkedPiece(rules: Rules, p: Parser, pieces: seq<string>, k: nat)
    requires Forward(rules) && k <= |pieces| && !Feed(rules, p, Flatten(pieces)).core.chunked
    ensures !StopsMidChunk(rules, p, Flatten(pieces[..k])) && SizesFit(rules, p, Flatten(pieces[..k]))
  {
    FlattenSplits(pieces, k);
    var b := RestOf(Flatten(pieces[..k]), Flatten(pieces));
    UnchunkedPrefix(rules, p, Flatten(pieces[..k]), b, Flatten(pieces));
  }

  /** HTTP cut independence: a request that is not chunked may be cut anywhere, into any number of pieces. */
  lemma UnchunkedCutIndependent(rules: Rules, p: Parser, pieces: seq<string>)
    requires Forward(rules) && pieces != [] && !Feed(rules, p, Flatten(pieces)).core.chunked
    ensures Same(FeedAll(rules, p, pieces), Feed(rules, p, Flatten(pieces)))
  {
    forall k | 0 < k < |pieces|
      ensures !StopsMidChunk(rules, p, Flatten(pieces[..k])) && SizesFit(rules, p, Flatten(pieces[..k]))
    {
      UnchunkedPiece(rules, p, pieces, k);
    }
    PiecesIndependent(rules, p, pieces);
  }

  lemma RequestLineMovesOn(c: Core, line: string)
    ensures !TakeRequestLine(c, line).mode.AtRequestLine?
  {
  }

  lemma HeaderMovesOn(c: Core, line: string)
    requires c.mode.AtHeaders?
    ensures TakeHeader(c, line).mode.AtHeaders? || TakeHeader(c, line).mode.Failed?
  {
  }

  lemma EndHeadersMovesOn(c: Core)
    ensures !EndHeaders(c).mode.AtRequestLine? && !EndHeaders(c).mode.AtHeaders?
  {
  }

  /** The rules of the code move the parser on. */
  lemma HttpForward()
    ensures Forward(HTTP)
  {
    forall c: Core, line: string ensures !HTTP.requestLine(c, line).mode.AtRequestLine? { RequestLineMovesOn(c, line); }
    forall c: Core, line: string | c.mode.AtHeaders?
      ensures HTTP.header(c, line).mode.AtHeaders? || HTTP.header(c, line).mode.Failed?
    {
      HeaderMovesOn(c, line);
    }
    forall c: Core ensures !HTTP.endHeaders(c).mode.AtRequestLine?
      && !HTTP.endHeaders(c).mode.AtHeaders? { EndHeadersMovesOn(c); }
  }

  /** With the rules of the code, from a fresh parser. */
  lemma HttpCutIndependent(pieces: seq<string>)
    requires pieces != [] && !Feed(HTTP, FRESH, Flatten(pieces)).core.chunked
    ensures Same(FeedAll(HTTP, FRESH, pieces), Feed(HTTP, FRESH, Flatten(pieces)))
  {
    HttpForward();
    UnchunkedCutIndependent(HTTP, FRESH, pieces);
  }
}
