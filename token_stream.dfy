/**
 * The token stream the compiler reads: advance() in compiler.c scans
 * tokens, passing over error tokens, and the parse consumes them up to the
 * first end-of-file token.
 */
module TokenStream {
  import opened Scanning

  /**
   * Scan, reached through `depth` trivial steps. The parser's contracts refer
   * to scanning through this indirection so that their proofs do not expand
   * the scanner's definition; ScannedIsScan equates the two.
   */
  ghost function Scanned(src: string, c: Cursor, depth: nat): (r: (Token, Cursor))
    requires c.current <= |src|
    ensures c.current <= r.1.current <= |src|
    ensures r.0.kind != Eof ==> c.current < r.1.current
  {
    if depth == 0 then ScanStart(src, c); Scan(src, c) else Scanned(src, c, depth - 1)
  }

  lemma {:induction false} ScannedIsScan(src: string, c: Cursor, depth: nat)
    requires c.current <= |src|
    ensures Scanned(src, c, depth) == Scan(src, c)
  {
    if depth > 0 {
      ScannedIsScan(src, c, depth - 1);
    }
  }

  /** advance's scanning loop: scan tokens, passing over error tokens. */
  ghost function NextToken(src: string, c: Cursor): (r: (Token, Cursor))
    requires c.current <= |src|
    ensures c.current <= r.1.current <= |src|
    ensures r.0.kind != Error
    ensures r.0.kind != Eof ==> c.current < r.1.current
    decreases |src| - c.current
  {
    var r := Scanned(src, c, 10);
    if r.0.kind == Error then NextToken(src, r.1) else r
  }

  /**
   * The kinds of the tokens advance() delivers from cursor `c` on, up to
   * and including the first end-of-file token.
   */
  ghost function Tokens(src: string, c: Cursor): (kinds: seq<TokenType>)
    requires c.current <= |src|
    decreases |src| - c.current
  {
    var r := NextToken(src, c);
    if r.0.kind == Eof then [Eof] else [r.0.kind] + Tokens(src, r.1)
  }

  /** The kinds still to be consumed when `kind` is current and the scanner is at `c`. */
  ghost function PendingOf(src: string, kind: TokenType, c: Cursor): seq<TokenType>
    requires c.current <= |src|
  {
    if kind == Eof then [Eof] else [kind] + Tokens(src, c)
  }

  /** The parser's termination measure: characters left (twice), plus one while `kind` is not EOF. */
  function Measure(src: string, kind: TokenType, c: Cursor): int
  {
    2 * (|src| - c.current) + if kind != Eof then 1 else 0
  }

  /** The stream from a cursor is the next token, then the stream after it. */
  lemma NextTokenStream(src: string, c: Cursor)
    requires c.current <= |src|
    ensures var r := NextToken(src, c);
      Tokens(src, c) == if r.0.kind == Eof then [Eof] else [r.0.kind] + Tokens(src, r.1)
  {
  }
}
