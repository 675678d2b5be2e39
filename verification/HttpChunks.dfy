/**
 Chunked bodies: the condition for cut independence is exact, and every chunked encoding is decoded
 by one feed and by any cuts that keep away from half-received chunks.
 */
module HttpChunks {
  import opened Options
  import opened Text
  import opened HttpParsing
  import opened HttpCuts

  // ------------------------------------------------------------------ a cut inside a chunk shows

  function BodyLength(p: Parser): nat { |p.core.request.body| }

  /** What a turn does depends on the buffer alone. */
  lemma TurnSame(rules: Rules, c: Core, d: Core, buffer: string)
    ensures var t, u := ChunkTurn(rules, Parser(c, buffer)), ChunkTurn(rules, Parser(d, buffer));
      && (t.Next? <==> u.Next?)
      && (t.Next? ==>
            u.p.buffer == t.p.buffer && BodyLength(t.p) - |c.request.body| == BodyLength(u.p) - |d.request.body|)
  {
  }

  lemma LastTurnGains(rules: Rules, p: Parser)
    requires !ChunkTurn(rules, p).Next?
    ensures BodyLength(ParseChunks(rules, p)) == BodyLength(p)
  {
  }

  /** How many body bytes the chunk loop finds depends on the buffer alone. */
  lemma {:induction false} GainSame(rules: Rules, c: Core, d: Core, buffer: string)
    ensures BodyLength(ParseChunks(rules, Parser(c, buffer))) - |c.request.body|
         == BodyLength(ParseChunks(rules, Parser(d, buffer))) - |d.request.body|
    decreases |buffer|
  {
    var p, q := Parser(c, buffer), Parser(d, buffer);
    TurnSame(rules, c, d, buffer);
    if ChunkTurn(rules, p).Next? {
      NextUnfolds(rules, p);
      NextUnfolds(rules, q);
      GainSame(rules, ChunkTurn(rules, p).p.core, ChunkTurn(rules, q).p.core, ChunkTurn(rules, p).p.buffer);
    } else {
      LastTurnGains(rules, p);
      LastTurnGains(rules, q);
    }
  }

  lemma {:induction false} GainPositive(rules: Rules, p: Parser)
    ensures BodyLength(p) <= BodyLength(ParseChunks(rules, p))
    decreases |p.buffer|
  {
    if ChunkTurn(rules, p).Next? {
      GainPositive(rules, ChunkTurn(rules, p).p);
    }
  }

  lemma NoNewLine(a: string)
    requires FindCrlf(a) == |a|
    ensures FindCrlf(a + "x") == |a + "x"|
  {
    assert forall k :: 0 <= k < |a| && CrlfAt(a + "x", k) ==> CrlfAt(a, k);
  }

  /** A size that overflows makes the turn take the whole buffer, whatever its length. */
  lemma OverflowTurn(rules: Rules, p: Parser)
    requires Forward(rules) && |p.buffer| < TWO_64 && !SizeFits(rules, p)
    ensures var turn, longer := ChunkTurn(rules, p), ChunkTurn(rules, p.Append("x"));
            && longer.Next? && (turn.Next? || turn.Starve?)
            && BodyLength(longer.p) > BodyLength(p)
            && (turn.Next? ==> longer.p.buffer == turn.p.buffer + "x" && BodyLength(longer.p) == BodyLength(turn.p) + 1)
            && (turn.Starve? ==> turn.p.core == p.core)
  {
    var i := FindCrlf(p.buffer);
    LineStays(p.buffer, "x");
    var rest, size := p.buffer[i + 2..], rules.chunkSize(p.buffer[..i]).value;
    assert WithCrlf(size) <= 1 && Prefix(rest + "x", size) == rest + "x";
    if WithCrlf(size) <= |rest| {
      Splice(rest, "x", WithCrlf(size));
    }
  }

  /** One byte more never yields less, and yields more if a size line overflowed. */
  lemma {:induction false} GainGrows(rules: Rules, p: Parser)
    requires Forward(rules) && |p.buffer| < TWO_64
    ensures BodyLength(ParseChunks(rules, p.Append("x"))) >=
              BodyLength(ParseChunks(rules, p)) + (if ChunksFit(rules, p) then 0 else 1)
    decreases |p.buffer|
  {
    var turn, longer := ChunkTurn(rules, p), ChunkTurn(rules, p.Append("x"));
    GainPositive(rules, p.Append("x"));
    if turn.Wait? {
      NoNewLine(p.buffer);
    } else if SizeFits(rules, p) {
      TurnStays(rules, p, "x");
      if turn.Next? {
        GainGrows(rules, turn.p);
      }
    } else {
      OverflowTurn(rules, p);
      GainPositive(rules, longer.p);
      if turn.Next? {
        GainGrows(rules, turn.p);
        GainSame(rules, turn.p.core, longer.p.core, longer.p.buffer);
      }
    }
  }

  /** What a starved loop forgets: the size of the chunk it was about to read. */
  function ForgottenSize(rules: Rules, p: Parser): nat
    requires ChunksStarve(rules, p)
    decreases |p.buffer|
  {
    var turn := ChunkTurn(rules, p);
    if turn.Next? then ForgottenSize(rules, turn.p)
    else rules.chunkSize(p.buffer[..FindCrlf(p.buffer)]).value
  }

  lemma {:induction false} StarvedState(rules: Rules, p: Parser)
    requires ChunksStarve(rules, p) && ChunksFit(rules, p)
    ensures var q, size := ParseChunks(rules, p), ForgottenSize(rules, p);
            && q.core.mode == p.core.mode && q.core.chunked == p.core.chunked
            && 0 < size && |q.buffer| < size + 2 < TWO_64
    decreases |p.buffer|
  {
    if ChunkTurn(rules, p).Next? {
      StarvedState(rules, ChunkTurn(rules, p).p);
    }
  }

  /** The loop after it has read the missing bytes `b` of a chunk of this size. */
  function Resumed(q: Parser, b: string, size: nat): Parser
    requires |q.buffer| + |b| >= size + 2
  {
    Parser(q.core.AddBody((q.buffer + b)[..size]), (q.buffer + b)[size + 2..])
  }

  lemma StarvedTurn(rules: Rules, p: Parser, b: string, size: nat)
    requires ChunkTurn(rules, p).Starve? && SizeFits(rules, p)
    requires rules.chunkSize(p.buffer[..FindCrlf(p.buffer)]) == Some(size)
    requires |ChunkTurn(rules, p).p.buffer| + |b| >= size + 2
    ensures ChunkTurn(rules, p.Append(b)) == Next(Resumed(ChunkTurn(rules, p).p, b, size))
  {
    LineStays(p.buffer, b);
  }

  /** What a turn that reads a chunk leaves to the rest of the loop. */
  lemma NextUnfolds(rules: Rules, p: Parser)
    requires ChunkTurn(rules, p).Next?
    ensures var q := ChunkTurn(rules, p).p;
            && ParseChunks(rules, p) == ParseChunks(rules, q)
            && (ChunksStarve(rules, p) <==> ChunksStarve(rules, q))
            && (ChunksFit(rules, p) ==> ChunksFit(rules, q) && SizeFits(rules, p))
            && (ChunksStarve(rules, p) ==> ForgottenSize(rules, p) == ForgottenSize(rules, q))
  {
  }

  lemma StarveUnfolds(rules: Rules, p: Parser)
    requires ChunkTurn(rules, p).Starve?
    ensures ParseChunks(rules, p) == ChunkTurn(rules, p).p
    ensures ChunksStarve(rules, p) && rules.chunkSize(p.buffer[..FindCrlf(p.buffer)]) == Some(ForgottenSize(rules, p))
    ensures ChunksFit(rules, p) ==> SizeFits(rules, p)
  {
  }

  /** With the missing bytes already there, the loop would have read that chunk. */
  lemma {:induction false} UncutReadsChunk(rules: Rules, p: Parser, b: string)
    requires ChunksStarve(rules, p) && ChunksFit(rules, p)
    requires |ParseChunks(rules, p).buffer| + |b| >= ForgottenSize(rules, p) + 2
    ensures ParseChunks(rules, p.Append(b))
      == ParseChunks(rules, Resumed(ParseChunks(rules, p), b, ForgottenSize(rules, p)))
    decreases |p.buffer|
  {
    var turn := ChunkTurn(rules, p);
    if turn.Next? {
      NextUnfolds(rules, p);
      TurnStays(rules, p, b);
      NextUnfolds(rules, p.Append(b));
      UncutReadsChunk(rules, turn.p, b);
    } else {
      StarveUnfolds(rules, p);
      StarvedTurn(rules, p, b, ForgottenSize(rules, p));
      NextUnfolds(rules, p.Append(b));
    }
  }

  // Three ways to tell a cut parser from an uncut one, by what the cut parser has left in its buffer.

  /** A complete line is left: feeding nothing reads it once more. */
  lemma EmptyFeedShows(rules: Rules, q: Parser)
    requires q.core.mode.AtBody? && q.core.chunked && FindCrlf(q.buffer) < |q.buffer|
    ensures !Same(Feed(rules, q, ""), q)
  {
    FeedLate(rules, q, "");
    assert q.buffer + "" == q.buffer;
    TurnConsumes(rules, q);
  }

  /** A turn on a complete line ends the loop or shortens the buffer. */
  lemma {:induction false} TurnConsumes(rules: Rules, p: Parser)
    requires FindCrlf(p.buffer) < |p.buffer|
    ensures |ParseChunks(rules, p).buffer| < |p.buffer|
    ensures ParseChunks(rules, p).core.mode == p.core.mode || ParseChunks(rules, p).core.mode.Failed?
      || ParseChunks(rules, p).core.mode.Complete?
    decreases |p.buffer|
  {
    var turn := ChunkTurn(rules, p);
    if turn.Next? && FindCrlf(turn.p.buffer) < |turn.p.buffer| {
      TurnConsumes(rules, turn.p);
    }
  }

  /** Bytes without a line end. */
  function Xs(n: nat): (s: string)
    ensures |s| == n
  {
    seq(n, _ => 'x')
  }

  lemma {:induction false} ManyNoNewLine(a: string, n: nat)
    requires FindCrlf(a) == |a|
    ensures FindCrlf(a + Xs(n)) == |a| + n
  {
    if n == 0 {
      assert a + Xs(n) == a;
    } else {
      ManyNoNewLine(a, n - 1);
      NoNewLine(a + Xs(n - 1));
      assert a + Xs(n) == a + Xs(n - 1) + "x";
    }
  }

  /** No line is left, and none comes: the cut parser waits. */
  lemma WaitsForLine(rules: Rules, q: Parser, n: nat)
    requires q.core.mode.AtBody? && q.core.chunked && FindCrlf(q.buffer) == |q.buffer|
    ensures Feed(rules, q, Xs(n)) == q.Append(Xs(n))
  {
    FeedLate(rules, q, Xs(n));
    ManyNoNewLine(q.buffer, n);
  }

  /** The missing bytes arrive: the uncut parser reads the chunk whose size the cut one has forgotten. */
  lemma FillShows(rules: Rules, p: Parser) returns (b: string)
    requires p.core.mode.AtBody? && p.core.chunked && ChunksStarve(rules, p) && ChunksFit(rules, p)
    requires FindCrlf(ParseChunks(rules, p).buffer) == |ParseChunks(rules, p).buffer|
    ensures !Same(Feed(rules, ParseChunks(rules, p), b), ParseChunks(rules, p.Append(b)))
  {
    var q, size := ParseChunks(rules, p), ForgottenSize(rules, p);
    StarvedState(rules, p);
    var k := size + 2 - |q.buffer|;
    b := Xs(k);
    UncutReadsChunk(rules, p, Xs(k));
    ResumedShows(rules, q, k, size);
  }

  lemma ResumedShows(rules: Rules, q: Parser, n: nat, size: nat)
    requires q.core.mode.AtBody? && q.core.chunked && FindCrlf(q.buffer) == |q.buffer|
    requires size > 0 && |q.buffer| + n >= size + 2
    ensures !Same(Feed(rules, q, Xs(n)), ParseChunks(rules, Resumed(q, Xs(n), size)))
  {
    GainPositive(rules, Resumed(q, Xs(n), size));
    WaitsForLine(rules, q, n);
  }

  /** A size overflowed, and the cut parser takes nothing more: the uncut one takes one byte more. */
  lemma OverflowShows(rules: Rules, p: Parser)
    requires Forward(rules) && |p.buffer| < TWO_64 && p.core.mode.AtBody? && p.core.chunked && !ChunksFit(rules, p)
    requires var q := ParseChunks(rules, p); q.core.mode.AtBody? ==> FindCrlf(q.buffer) == |q.buffer|
    ensures !Same(Feed(rules, ParseChunks(rules, p), "x"), ParseChunks(rules, p.Append("x")))
  {
    var q := ParseChunks(rules, p);
    GainGrows(rules, p);
    ChunkedStays(rules, p);
    LoopModes(rules, p);
    if q.core.mode.AtBody? {
      WaitsForLine(rules, q, 1);
      assert Xs(1) == "x";
    } else {
      FeedLate(rules, q, "x");
    }
  }

  lemma {:induction false} LoopModes(rules: Rules, p: Parser)
    requires p.core.mode.AtBody?
    ensures var mode := ParseChunks(rules, p).core.mode; mode.AtBody? || mode.Failed? || mode.Complete?
    ensures ChunksStarve(rules, p) ==> ParseChunks(rules, p).core.mode.AtBody?
    ensures ParseChunks(rules, p).core.mode.AtBody? && !ChunksStarve(rules, p) ==>
      FindCrlf(ParseChunks(rules, p).buffer) == |ParseChunks(rules, p).buffer|
    decreases |p.buffer|
  {
    if ChunkTurn(rules, p).Next? {
      LoopModes(rules, ChunkTurn(rules, p).p);
    }
  }

  /** A loop that starved or read a size that overflows: some continuation tells the cut parser from the uncut one. */
  lemma CutShows(rules: Rules, p: Parser) returns (b: string)
    requires Forward(rules) && |p.buffer| < TWO_64 && p.core.mode.AtBody? && p.core.chunked
    requires ChunksStarve(rules, p) || !ChunksFit(rules, p)
    ensures !Same(Feed(rules, ParseChunks(rules, p), b), ParseChunks(rules, p.Append(b)))
  {
    var q := ParseChunks(rules, p);
    ChunkedStays(rules, p);
    LoopModes(rules, p);
    if q.core.mode.AtBody? && FindCrlf(q.buffer) < |q.buffer| {
      b := "";
      EmptyFeedShows(rules, q);
      assert p.Append("") == p by { assert p.buffer + "" == p.buffer; }
    } else if !ChunksFit(rules, p) {
      b := "x";
      OverflowShows(rules, p);
    } else {
      b := FillShows(rules, p);
    }
  }

  /** The cut between `a` and `b` makes no difference. */
  ghost predicate CutHarmless(rules: Rules, p: Parser, a: string, b: string) {
    Same(Feed(rules, Feed(rules, p, a), b), Feed(rules, p, a + b))
  }

  lemma FeedChunked(rules: Rules, p: Parser, a: string, b: string)
    requires Forward(rules) && !p.core.mode.Failed?
    requires var q := Headed(rules, p.Append(a)); q.core.mode.AtBody? && q.core.chunked
    ensures var q := Headed(rules, p.Append(a));
            Feed(rules, p, a) == ParseChunks(rules, q) && Feed(rules, p, a + b) == ParseChunks(rules, q.Append(b))
  {
    HeadedStays(rules, p.Append(a), b);
    assert p.buffer + (a + b) == p.buffer + a + b;
  }

  lemma UnsafeCutShows(rules: Rules, p: Parser, a: string)
    requires Forward(rules) && |p.buffer| + |a| < TWO_64 && (StopsMidChunk(rules, p, a) || !SizesFit(rules, p, a))
    ensures exists b :: !CutHarmless(rules, p, a, b)
  {
    var q := Headed(rules, p.Append(a));
    HeadedShortens(rules, p.Append(a));
    var b := CutShows(rules, q);
    FeedChunked(rules, p, a, b);
    assert !CutHarmless(rules, p, a, b);
  }

  lemma {:induction false} HeadersShorten(rules: Rules, p: Parser)
    ensures |ParseHeaders(rules, p).buffer| <= |p.buffer|
    decreases |p.buffer|
  {
    if HeaderTurn(rules, p).Onward? {
      HeadersShorten(rules, HeaderTurn(rules, p).p);
    }
  }

  lemma HeadedShortens(rules: Rules, p: Parser)
    ensures |Headed(rules, p).buffer| <= |p.buffer|
  {
    HeadersShorten(rules, p);
    HeadersShorten(rules, ParseRequestLine(rules, p));
  }

  /**
   The exact condition, for any buffer that fits the memory: whatever follows, the cut after `a`
   makes no difference if and only if feeding `a` does not stop in the middle of a chunk and no size
   line it reads makes `chunkSize + 2` wrap.
   */
  lemma CutIndependentExactly(rules: Rules, p: Parser, a: string)
    requires Forward(rules) && |p.buffer| + |a| < TWO_64
    ensures (forall b :: CutHarmless(rules, p, a, b)) <==> !StopsMidChunk(rules, p, a) && SizesFit(rules, p, a)
  {
    if StopsMidChunk(rules, p, a) || !SizesFit(rules, p, a) {
      UnsafeCutShows(rules, p, a);
    } else {
      forall b ensures CutHarmless(rules, p, a, b) {
        CutIndependent(rules, p, a, b);
      }
    }
  }

  // ------------------------------------------------------------------ decoding

  datatype Chunk = Chunk(line: string, data: string)

  /** A chunk of section 7.1 of RFC 9112: a size line (with any extensions) and that many bytes. */
  ghost predicate ChunkOk(rules: Rules, c: Chunk) {
    && FindCrlf(c.line + CRLF) == |c.line|
    && rules.chunkSize(c.line) == Some(|c.data|) && 0 < |c.data| && |c.data| + 2 < TWO_64
  }

  ghost predicate LastLineOk(rules: Rules, line: string) {
    FindCrlf(line + CRLF) == |line| && rules.chunkSize(line) == Some(0)
  }

  function EncodeOne(c: Chunk): string {
    c.line + CRLF + (c.data + CRLF)
  }

  function Encode(cs: seq<Chunk>): string {
    if cs == [] then "" else EncodeOne(cs[0]) + Encode(cs[1..])
  }

  function Data(cs: seq<Chunk>): string {
    if cs == [] then "" else cs[0].data + Data(cs[1..])
  }

  /** The first line of `line CRLF more`. */
  lemma FirstLine(line: string, more: string)
    requires FindCrlf(line + CRLF) == |line|
    ensures var s := line + CRLF + more;
            FindCrlf(s) == |line| && s[..|line|] == line && s[|line| + 2..] == more
  {
    LineStays(line + CRLF, more);
  }

  /** One turn of the chunk loop on a buffer whose first line is `line`. */
  lemma LineTurn(rules: Rules, core: Core, line: string, more: string)
    requires FindCrlf(line + CRLF) == |line|
    ensures ChunkTurn(rules, Parser(core, line + CRLF + more)) ==
            match rules.chunkSize(line)
            case None => Stop(Parser(core.Fail("Invalid chunk size"), more))
            case Some(size) =>
              if size == 0 then Stop(Parser(core.(mode := Complete), more))
              else if |more| < WithCrlf(size) then Starve(Parser(core, more))
              else Next(Parser(core.AddBody(Prefix(more, size)), more[WithCrlf(size)..]))
    ensures SizeFits(rules, Parser(core, line + CRLF + more)) <==>
            (rules.chunkSize(line).Some? ==> rules.chunkSize(line).value + 2 < TWO_64)
  {
    FirstLine(line, more);
  }

  /** Equal as far as the chunk loop started on them goes. */
  ghost predicate SameLoop(rules: Rules, p: Parser, q: Parser) {
    && ParseChunks(rules, p) == ParseChunks(rules, q)
    && ChunksStarve(rules, p) == ChunksStarve(rules, q)
    && ChunksFit(rules, p) == ChunksFit(rules, q)
  }

  lemma ChunkIsTaken(rules: Rules, core: Core, c: Chunk, more: string)
    requires ChunkOk(rules, c)
    ensures SameLoop(rules, Parser(core, c.line + CRLF + (c.data + CRLF + more)), Parser(core.AddBody(c.data), more))
  {
    var rest := c.data + CRLF + more;
    LineTurn(rules, core, c.line, rest);
    assert rest[..|c.data|] == c.data;
    assert rest[|c.data| + 2..] == more;
  }

  lemma EncodeFirst(cs: seq<Chunk>, more: string)
    requires cs != []
    ensures Encode(cs) + more == cs[0].line + CRLF + (cs[0].data + CRLF + (Encode(cs[1..]) + more))
  {
    var rest := Encode(cs[1..]);
    Assoc(EncodeOne(cs[0]), rest, more);
    Assoc(cs[0].line + CRLF, cs[0].data + CRLF, rest + more);
  }

  lemma AddBodyTwice(core: Core, a: string, b: string)
    ensures core.AddBody(a).AddBody(b) == core.AddBody(a + b)
    ensures core.AddBody("") == core
  {
    assert core.request.body + a + b == core.request.body + (a + b);
    assert core.request.body + "" == core.request.body;
  }

  /** The chunk loop consumes whole chunks one after the other and goes on with what follows them. */
  lemma {:induction false} ChunksAreTaken(rules: Rules, core: Core, cs: seq<Chunk>, more: string)
    requires forall i :: 0 <= i < |cs| ==> ChunkOk(rules, cs[i])
    ensures SameLoop(rules, Parser(core, Encode(cs) + more), Parser(core.AddBody(Data(cs)), more))
    decreases |cs|
  {
    if cs == [] {
      AddBodyTwice(core, "", "");
      assert "" + more == more;
    } else {
      var c, rest := cs[0], Encode(cs[1..]) + more;
      EncodeFirst(cs, more);
      ChunkIsTaken(rules, core, c, rest);
      ChunksAreTaken(rules, core.AddBody(c.data), cs[1..], more);
      AddBodyTwice(core, c.data, Data(cs[1..]));
    }
  }

  lemma LastLineEnds(rules: Rules, core: Core, last: string, more: string)
    requires LastLineOk(rules, last)
    ensures ParseChunks(rules, Parser(core, last + CRLF + more)) == Parser(core.(mode := Complete), more)
  {
    LineTurn(rules, core, last, more);
  }

  /** The chunk loop turns every encoded list of chunks into its concatenation. */
  lemma ChunksDecode(rules: Rules, core: Core, cs: seq<Chunk>, last: string, more: string)
    requires (forall i :: 0 <= i < |cs| ==> ChunkOk(rules, cs[i])) && LastLineOk(rules, last)
    ensures ParseChunks(rules, Parser(core, Encode(cs) + (last + CRLF + more)))
         == Parser(core.AddBody(Data(cs)).(mode := Complete), more)
  {
    ChunksAreTaken(rules, core, cs, last + CRLF + more);
    LastLineEnds(rules, core.AddBody(Data(cs)), last, more);
  }

  // ------------------------------------------------------------------ decoding a stream that arrives in pieces

  lemma ShortLine(line: string, more: string, t: string)
    requires FindCrlf(line + CRLF) == |line| && t <= line + CRLF + more && |t| < |line| + 2
    ensures FindCrlf(t) == |t|
  {
    FirstLine(line, more);
    assert forall k :: 0 <= k < |t| && CrlfAt(t, k) ==> CrlfAt(line + CRLF + more, k) && k < |line|;
  }

  /**
   A cut after `n` bytes of the encoding keeps away from half-received chunks: it falls inside a size
   line or its CRLF, between two chunks, or after the last chunk.
   */
  ghost predicate AllowedCut(cs: seq<Chunk>, n: nat) {
    cs == [] || n < |cs[0].line| + 2 || (n >= |EncodeOne(cs[0])| && AllowedCut(cs[1..], n - |EncodeOne(cs[0])|))
  }

  /** The loop waits, or reads the last line: nothing is forgotten. */
  lemma SafeAlready(rules: Rules, p: Parser)
    requires var t := p.buffer; FindCrlf(t) == |t| || rules.chunkSize(t[..FindCrlf(t)]) == Some(0)
    ensures !ChunksStarve(rules, p) && ChunksFit(rules, p)
  {
  }

  lemma LastLinePrefix(rules: Rules, core: Core, last: string, more: string, t: string)
    requires LastLineOk(rules, last) && t <= last + CRLF + more
    ensures !ChunksStarve(rules, Parser(core, t)) && ChunksFit(rules, Parser(core, t))
  {
    if |t| < |last| + 2 {
      ShortLine(last, more, t);
    } else {
      PrefixOf(last + CRLF, more, t);
      FirstLine(last, more[..|t| - |last| - 2]);
    }
    SafeAlready(rules, Parser(core, t));
  }

  lemma PrefixOf(h: string, body: string, a: string)
    requires a <= h + body && |h| <= |a|
    ensures |a| - |h| <= |body| && a == h + body[..|a| - |h|]
  {
  }

  lemma AfterPrefixOf(h: string, body: string, a: string) returns (t: string)
    requires a <= h + body && |h| <= |a|
    ensures a == h + t && t <= body && |t| == |a| - |h|
  {
    t := a[|h|..];
  }

  lemma CutInSizeLine(rules: Rules, core: Core, line: string, more: string, t: string)
    requires FindCrlf(line + CRLF) == |line| && t <= line + CRLF + more && |t| < |line| + 2
    ensures !ChunksStarve(rules, Parser(core, t)) && ChunksFit(rules, Parser(core, t))
  {
    ShortLine(line, more, t);
    SafeAlready(rules, Parser(core, t));
  }

  /** Past the first chunk: what is left of the cut stream is a beginning of what follows the chunk. */
  lemma CutPast(line: string, data: string, rest: string, t: string) returns (u: string)
    requires t <= line + CRLF + (data + CRLF + rest) && |t| >= |line| + |data| + 4
    ensures u <= rest && t == line + CRLF + (data + CRLF + u) && |u| == |t| - |line| - |data| - 4
  {
    PrefixOf(line + CRLF, data + CRLF + rest, t);
    var v := t[|line| + 2..];
    PrefixOf(data + CRLF, rest, v);
    u := v[|data| + 2..];
  }

  /** A beginning of the encoded chunks that ends where a cut is allowed leaves nothing forgotten. */
  lemma {:induction false} AllowedIsSafe(rules: Rules, core: Core, cs: seq<Chunk>, tail: string, last: string,
                                         more: string, t: string)
    requires (forall i :: 0 <= i < |cs| ==> ChunkOk(rules, cs[i])) && LastLineOk(rules, last)
    requires tail == last + CRLF + more
    requires t <= Encode(cs) + tail && AllowedCut(cs, |t|)
    ensures !ChunksStarve(rules, Parser(core, t)) && ChunksFit(rules, Parser(core, t))
    decreases |cs|
  {
    if cs == [] {
      EmptyFirst(tail);
      LastLinePrefix(rules, core, last, more, t);
    } else {
      var c, rest := cs[0], Encode(cs[1..]) + tail;
      EncodeFirst(cs, tail);
      if |t| < |c.line| + 2 {
        CutInSizeLine(rules, core, c.line, c.data + CRLF + rest, t);
      } else {
        var u := CutPast(c.line, c.data, rest, t);
        ChunkIsTaken(rules, core, c, u);
        AllowedIsSafe(rules, core.AddBody(c.data), cs[1..], tail, last, more, u);
      }
    }
  }

  /** A cut inside the headers, or right after them, leaves no chunk behind. */
  lemma HeaderCutIsSafe(rules: Rules, p: Parser, h: string, a: string)
    requires Forward(rules) && a <= h && Headed(rules, p.Append(h)).buffer == ""
    requires Headed(rules, p.Append(h)).core.mode.AtBody?
    ensures !StopsMidChunk(rules, p, a) && SizesFit(rules, p, a)
  {
    var q, b := Headed(rules, p.Append(a)), h[|a|..];
    if q.core.mode.AtBody? {
      assert p.buffer + h == p.buffer + a + b;
      HeadedStays(rules, p.Append(a), b);
      assert q.buffer == "";
      SafeAlready(rules, q);
    }
  }

  /** A cut after the headers is judged by the chunks alone. */
  lemma ChunkCutIsSafe(rules: Rules, p: Parser, h: string, t: string, a: string)
    requires Forward(rules) && !p.core.mode.Failed? && a == h + t
    requires var q := Headed(rules, p.Append(h)); q.core.mode.AtBody? && q.core.chunked && q.buffer == ""
    requires var q := Parser(Headed(rules, p.Append(h)).core, t); !ChunksStarve(rules, q) && ChunksFit(rules, q)
    ensures !StopsMidChunk(rules, p, a) && SizesFit(rules, p, a)
  {
    assert p.buffer + a == p.buffer + h + t && "" + t == t;
    HeadedStays(rules, p.Append(h), t);
  }

  lemma HeadersThenChunks(rules: Rules, p: Parser, h: string, t: string)
    requires Forward(rules) && !p.core.mode.Failed?
    requires var q := Headed(rules, p.Append(h)); q.core.mode.AtBody? && q.core.chunked && q.buffer == ""
    ensures Feed(rules, p, h + t) == ParseChunks(rules, Parser(Headed(rules, p.Append(h)).core, t))
  {
    assert p.buffer + (h + t) == p.buffer + h + t && "" + t == t;
    HeadedStays(rules, p.Append(h), t);
  }

  /** A cut of the whole request: anywhere up to the end of the headers `h`, and after them as the chunks allow. */
  ghost predicate AllowedInRequest(h: string, cs: seq<Chunk>, n: nat) {
    n <= |h| || AllowedCut(cs, n - |h|)
  }

  lemma LaterCutIsSafe(rules: Rules, p: Parser, h: string, cs: seq<Chunk>, tail: string, last: string, more: string,
                       t: string, a: string)
    requires Forward(rules) && !p.core.mode.Failed? && a == h + t
    requires var q := Headed(rules, p.Append(h)); q.core.mode.AtBody? && q.core.chunked && q.buffer == ""
    requires (forall i :: 0 <= i < |cs| ==> ChunkOk(rules, cs[i])) && LastLineOk(rules, last)
    requires tail == last + CRLF + more
    requires t <= Encode(cs) + tail && AllowedCut(cs, |t|)
    ensures !StopsMidChunk(rules, p, a) && SizesFit(rules, p, a)
  {
    AllowedIsSafe(rules, Headed(rules, p.Append(h)).core, cs, tail, last, more, t);
    ChunkCutIsSafe(rules, p, h, t, a);
  }

  lemma RequestCutIsSafe(rules: Rules, p: Parser, h: string, cs: seq<Chunk>, tail: string, last: string, more: string,
                         a: string)
    requires Forward(rules) && !p.core.mode.Failed?
    requires var q := Headed(rules, p.Append(h)); q.core.mode.AtBody? && q.core.chunked && q.buffer == ""
    requires (forall i :: 0 <= i < |cs| ==> ChunkOk(rules, cs[i])) && LastLineOk(rules, last)
    requires tail == last + CRLF + more
    requires a <= h + (Encode(cs) + tail) && AllowedInRequest(h, cs, |a|)
    ensures !StopsMidChunk(rules, p, a) && SizesFit(rules, p, a)
  {
    if |a| <= |h| {
      ShortPrefix(h, Encode(cs) + tail, a);
      HeaderCutIsSafe(rules, p, h, a);
    } else {
      LongCutIsSafe(rules, p, h, cs, tail, last, more, a);
    }
  }

  lemma ShortPrefix(h: string, body: string, a: string)
    requires a <= h + body && |a| <= |h|
    ensures a <= h
  {
  }

  lemma LongCutIsSafe(rules: Rules, p: Parser, h: string, cs: seq<Chunk>, tail: string, last: string, more: string,
                      a: string)
    requires Forward(rules) && !p.core.mode.Failed?
    requires var q := Headed(rules, p.Append(h)); q.core.mode.AtBody? && q.core.chunked && q.buffer == ""
    requires (forall i :: 0 <= i < |cs| ==> ChunkOk(rules, cs[i])) && LastLineOk(rules, last)
    requires tail == last + CRLF + more
    requires a <= h + (Encode(cs) + tail) && |h| < |a| && AllowedCut(cs, |a| - |h|)
    ensures !StopsMidChunk(rules, p, a) && SizesFit(rules, p, a)
  {
    var t := AfterPrefixOf(h, Encode(cs) + tail, a);
    LaterCutIsSafe(rules, p, h, cs, tail, last, more, t, a);
  }

  /**
   Decoding undoes the encoding, from any parser that has not failed: headers `h` that announce a
   chunked body, then the chunks, then anything, in any pieces whose cuts are allowed ones, one piece
   included.
   */
  lemma DecodesRequest(rules: Rules, p: Parser, h: string, cs: seq<Chunk>, last: string, more: string,
                       pieces: seq<string>)
    requires Forward(rules) && !p.core.mode.Failed?
    requires var q := Headed(rules, p.Append(h)); q.core.mode.AtBody? && q.core.chunked && q.buffer == ""
    requires (forall i :: 0 <= i < |cs| ==> ChunkOk(rules, cs[i])) && LastLineOk(rules, last)
    requires pieces != [] && Flatten(pieces) == h + (Encode(cs) + (last + CRLF + more))
    requires forall k :: 0 < k < |pieces| ==> AllowedInRequest(h, cs, |Flatten(pieces[..k])|)
    ensures FeedAll(rules, p, pieces)
         == Parser(Headed(rules, p.Append(h)).core.AddBody(Data(cs)).(mode := Complete), more)
  {
    var q := Headed(rules, p.Append(h));
    forall k | 0 < k < |pieces|
      ensures !StopsMidChunk(rules, p, Flatten(pieces[..k])) && SizesFit(rules, p, Flatten(pieces[..k]))
    {
      FlattenSplits(pieces, k);
      RequestCutIsSafe(rules, p, h, cs, last + CRLF + more, last, more, Flatten(pieces[..k]));
    }
    PiecesIndependent(rules, p, pieces);
    HeadersThenChunks(rules, p, h, Encode(cs) + (last + CRLF + more));
    ChunksDecode(rules, q.core, cs, last, more);
  }

  // ------------------------------------------------------------------ the encoding of section 7.1 of RFC 9112

  function HexDigit(d: nat): char
    requires d < 16
  {
    "0123456789abcdef"[d]
  }

  function Hex(n: nat): string {
    if n < 16 then [HexDigit(n)] else Hex(n / 16) + [HexDigit(n % 16)]
  }

  lemma HexDigitOk(d: nat)
    requires d < 16
    ensures DigitValue(HexDigit(d)) == d && !IsSpace(HexDigit(d)) && HexDigit(d) != 'x' && HexDigit(d) != 'X'
    ensures HexDigit(d) != '-' && HexDigit(d) != '+'
  {
  }

  lemma {:induction false} HexValue(n: nat)
    ensures forall k :: 0 <= k < |Hex(n)| ==>
              IsDigit(Hex(n)[k], 16) && exists d: nat :: d < 16 && Hex(n)[k] == HexDigit(d)
    ensures Hex(n) != "" && Value(Hex(n), 16) == n
    decreases n
  {
    HexDigitOk(n % 16);
    if n < 16 {
      assert Hex(n)[..0] == "";
    } else {
      HexValue(n / 16);
      assert Hex(n)[..|Hex(n)| - 1] == Hex(n / 16);
    }
  }

  lemma HexIsPlain(n: nat)
    ensures Hex(n) != ""
    ensures forall k :: 0 <= k < |Hex(n)| ==> !IsSpace(Hex(n)[k]) && Hex(n)[k] !in "+-xX"
  {
    var h := Hex(n);
    HexValue(n);
    forall k | 0 <= k < |h| ensures !IsSpace(h[k]) && h[k] !in "+-xX" {
      var d: nat :| d < 16 && h[k] == HexDigit(d);
      HexDigitOk(d);
    }
  }

  /** The size line of every chunk length reads back as that length. */
  lemma HexReadsBack(n: nat)
    requires n < TWO_64
    ensures Stoul(Hex(n), 16) == Some(n)
  {
    HexIsPlain(n);
    HexValue(n);
    PlainDigits(Hex(n), 16);
  }

  lemma HexLineEnds(n: nat)
    ensures FindCrlf(Hex(n) + CRLF) == |Hex(n)|
  {
    var h := Hex(n);
    HexIsPlain(n);
    assert CrlfAt(h + CRLF, |h|);
    assert forall k :: 0 <= k < |h| ==> (h + CRLF)[k] == h[k] && !CrlfAt(h + CRLF, k);
  }

  lemma StandardChunkOk(data: string)
    requires 0 < |data| && |data| + 2 < TWO_64
    ensures ChunkOk(HTTP, Chunk(Hex(|data|), data))
    ensures LastLineOk(HTTP, Hex(0))
  {
    HexReadsBack(|data|);
    HexReadsBack(0);
    HexLineEnds(|data|);
    HexLineEnds(0);
  }

  /** The chunks that carry these pieces of a body, with their lengths as size lines. */
  function StandardChunks(parts: seq<string>): seq<Chunk> {
    seq(|parts|, i requires 0 <= i < |parts| => Chunk(Hex(|parts[i]|), parts[i]))
  }

  /**
   With the rules of the code, from a fresh parser: a chunked request arrives whole, however its body
   was split into chunks and wherever it is allowed to be cut.
   */
  lemma HttpDecodesRequest(h: string, parts: seq<string>, more: string, pieces: seq<string>)
    requires var q := Headed(HTTP, FRESH.Append(h)); q.core.mode.AtBody? && q.core.chunked && q.buffer == ""
    requires forall i :: 0 <= i < |parts| ==> 0 < |parts[i]| && |parts[i]| + 2 < TWO_64
    requires pieces != [] && Flatten(pieces) == h + (Encode(StandardChunks(parts)) + (Hex(0) + CRLF + more))
    requires forall k :: 0 < k < |pieces| ==> AllowedInRequest(h, StandardChunks(parts), |Flatten(pieces[..k])|)
    ensures FeedAll(HTTP, FRESH, pieces)
         == Parser(Headed(HTTP, FRESH.Append(h)).core.AddBody(Flatten(parts)).(mode := Complete), more)
  {
    var cs := StandardChunks(parts);
    HttpForward();
    forall i | 0 <= i < |cs| ensures ChunkOk(HTTP, cs[i]) { StandardChunkOk(parts[i]); }
    StandardChunkOk("x");
    DecodesRequest(HTTP, FRESH, h, cs, Hex(0), more, pieces);
    DataIsParts(parts);
  }

  lemma {:induction false} DataJoins(a: seq<Chunk>, c: Chunk)
    ensures Data(a + [c]) == Data(a) + c.data
    decreases |a|
  {
    if a == [] {
      assert a + [c] == [c] && Data([c]) == c.data + "" == c.data;
    } else {
      DataJoins(a[1..], c);
      assert (a + [c])[1..] == a[1..] + [c];
      Assoc(a[0].data, Data(a[1..]), c.data);
    }
  }

  lemma {:induction false} DataIsParts(parts: seq<string>)
    ensures Data(StandardChunks(parts)) == Flatten(parts)
    decreases |parts|
  {
    if parts != [] {
      var front, last := parts[..|parts| - 1], parts[|parts| - 1];
      DataIsParts(front);
      assert StandardChunks(parts) == StandardChunks(front) + [Chunk(Hex(|last|), last)];
      DataJoins(StandardChunks(front), Chunk(Hex(|last|), last));
    }
  }

  /**
   A chunk whose data does not look like a size, cut right after its size line: the uncut stream
   decodes, the cut one fails.
   */
  lemma CutAfterSizeLine(rules: Rules, p: Parser, c: Chunk, last: string)
    requires p.core.mode.AtBody? && p.core.chunked && p.buffer == ""
    requires ChunkOk(rules, c) && LastLineOk(rules, last)
    requires FindCrlf(c.data + CRLF) == |c.data| && rules.chunkSize(c.data) == None
    ensures Feed(rules, p, Encode([c]) + (last + CRLF + "")) == Parser(p.core.AddBody(Data([c])).(mode := Complete), "")
    ensures Feed(rules, Feed(rules, p, c.line + CRLF + ""), c.data + CRLF + (last + CRLF)).core.mode.Failed?
  {
    FeedLate(rules, p, Encode([c]) + (last + CRLF + ""));
    EmptyFirst(Encode([c]) + (last + CRLF + ""));
    ChunksDecode(rules, p.core, [c], last, "");
    var a, b := c.line + CRLF + "", c.data + CRLF + (last + CRLF);
    EmptyFirst(a);
    EmptyFirst(b);
    LineTurn(rules, p.core, c.line, "");
    FeedLate(rules, p, a);
    LineTurn(rules, p.core, c.data, last + CRLF);
    FeedLate(rules, p, b);
  }

  lemma EmptyFirst(s: string)
    ensures "" + s == s
  {
  }

  lemma ShortLineEnds(s: string)
    requires |s| == 1
    ensures FindCrlf(s + CRLF) == 1
  {
    assert CrlfAt(s + CRLF, 1) && !CrlfAt(s + CRLF, 0);
  }

  /** The smallest such cut: the one-byte chunk `z`. */
  lemma ForbiddenCutExample(p: Parser)
    requires p.core.mode.AtBody? && p.core.chunked && p.buffer == ""
    ensures Feed(HTTP, Feed(HTTP, p, Hex(1) + CRLF + ""), "z" + CRLF + (Hex(0) + CRLF)).core.mode.Failed?
    ensures Feed(HTTP, p, Encode([Chunk(Hex(1), "z")]) + (Hex(0) + CRLF + "")).core.mode.Complete?
  {
    var c := Chunk(Hex(1), "z");
    StandardChunkOk("z");
    NoNumber(c.data, 16);
    ShortLineEnds(c.data);
    CutAfterSizeLine(HTTP, p, c, Hex(0));
  }
}
