/**
 * Newline framing of the feed connection: bytes arrive in arbitrary reads,
 * complete lines are handled, the rest stays pending.
 */
module FeedFraming {

  const MAX_PENDING := 131072
  const READ_BUFFER := 8192

  // ---------- What a byte stream means ----------

  /** A line's text: one carriage return before the newline is dropped. */
  function Chomp(s: string): string {
    if s != [] && s[|s| - 1] == '\r' then s[..|s| - 1] else s
  }

  lemma ChompSlice(s: string, i: nat, j: nat)
    requires i <= j <= |s|
    ensures Chomp(s[i..j]) == if i < j && s[j - 1] == '\r' then s[i..j - 1] else s[i..j]
  {
    if i < j { assert s[i..j][..j - i - 1] == s[i..j - 1]; }
  }

  /** The complete lines of a stream, given the text before it on the current line. */
  function LinesFrom(cur: string, s: string): seq<string>
    decreases s
  {
    if s == [] then []
    else if s[0] == '\n' then [Chomp(cur)] + LinesFrom([], s[1..])
    else LinesFrom(cur + [s[0]], s[1..])
  }

  /** The text after the last newline. */
  function RestFrom(cur: string, s: string): string
    decreases s
  {
    if s == [] then cur
    else if s[0] == '\n' then RestFrom([], s[1..])
    else RestFrom(cur + [s[0]], s[1..])
  }

  function Lines(s: string): seq<string> {
    LinesFrom([], s)
  }

  function Rest(s: string): string {
    RestFrom([], s)
  }

  predicate NoNewline(s: string) {
    forall i :: 0 <= i < |s| ==> s[i] != '\n'
  }

  lemma {:induction false} RestHasNoNewline(cur: string, s: string)
    requires NoNewline(cur)
    ensures NoNewline(RestFrom(cur, s))
    decreases s
  {
    if s != [] {
      if s[0] == '\n' { RestHasNoNewline([], s[1..]); } else { RestHasNoNewline(cur + [s[0]], s[1..]); }
    }
  }

  /** Lines with their newlines put back, one after the other. */
  function Glue(raw: seq<string>): string {
    if raw == [] then [] else raw[0] + "\n" + Glue(raw[1..])
  }

  lemma Regrouped(x: string, y: string, z: string, s: string)
    requires s != [] && s[0] == '\n' && y + z == s[1..]
    ensures x + "\n" + y + z == x + s
  {
    assert s == "\n" + s[1..];
    assert x + "\n" + y + z == x + ("\n" + (y + z));
  }

  /**
   * Framing loses nothing: some newline-free pieces, glued back with their
   * newlines and followed by the rest, are the stream, and the lines are these
   * pieces with a trailing carriage return dropped.
   */
  lemma {:induction false} LinesRebuildStream(cur: string, s: string) returns (raw: seq<string>)
    requires NoNewline(cur)
    ensures Glue(raw) + RestFrom(cur, s) == cur + s
    ensures |LinesFrom(cur, s)| == |raw|
    ensures forall i :: 0 <= i < |raw| ==> NoNewline(raw[i]) && LinesFrom(cur, s)[i] == Chomp(raw[i])
    decreases s
  {
    if s == [] {
      raw := [];
    } else if s[0] == '\n' {
      var more := LinesRebuildStream([], s[1..]);
      raw := [cur] + more;
      assert raw[1..] == more && [] + s[1..] == s[1..];
      Regrouped(cur, Glue(more), RestFrom([], s[1..]), s);
    } else {
      raw := LinesRebuildStream(cur + [s[0]], s[1..]);
      assert cur + [s[0]] + s[1..] == cur + s;
    }
  }

  /** Text without a newline just extends the current line. */
  lemma {:induction false} PlainPrefix(cur: string, x: string, s: string)
    requires NoNewline(x)
    ensures LinesFrom(cur, x + s) == LinesFrom(cur + x, s) && RestFrom(cur, x + s) == RestFrom(cur + x, s)
    decreases x
  {
    if x == [] {
      assert x + s == s && cur + x == cur;
    } else {
      assert (x + s)[1..] == x[1..] + s;
      assert cur + [x[0]] + x[1..] == cur + x;
      PlainPrefix(cur + [x[0]], x[1..], s);
    }
  }

  /** A line ends at its newline; a carriage return before it is not part of the line, and only one is dropped. */
  lemma LineEnds(x: string, s: string)
    requires NoNewline(x)
    ensures Lines(x + "\r\n" + s) == [x] + Lines(s)
    ensures (x == [] || x[|x| - 1] != '\r') ==> Lines(x + "\n" + s) == [x] + Lines(s)
  {
    var cr := x + "\r";
    assert x + "\r\n" + s == cr + ("\n" + s) && x + "\n" + s == x + ("\n" + s);
    PlainPrefix([], cr, "\n" + s);
    PlainPrefix([], x, "\n" + s);
    assert [] + cr == cr && [] + x == x && cr[..|x|] == x;
    assert ("\n" + s)[1..] == s;
  }

  /** Reading on from the pending text is reading the two streams as one. */
  lemma {:induction false} StreamAppend(cur: string, s: string, t: string)
    ensures LinesFrom(cur, s + t) == LinesFrom(cur, s) + LinesFrom(RestFrom(cur, s), t)
    ensures RestFrom(cur, s + t) == RestFrom(RestFrom(cur, s), t)
    decreases s
  {
    if s == [] {
      assert s + t == t;
    } else {
      assert (s + t)[1..] == s[1..] + t;
      if s[0] == '\n' { StreamAppend([], s[1..], t); } else { StreamAppend(cur + [s[0]], s[1..], t); }
    }
  }

  // ---------- The session ----------

  datatype State = State(open: bool, pending: string, handled: seq<string>)

  const STARTED := State(true, [], [])

  /** One read: append, disconnect if too much is pending, else handle the complete lines. */
  function Read(s: State, chunk: string): State {
    if !s.open then s else
    var all := s.pending + chunk;
    if |all| > MAX_PENDING then s.(open := false, pending := all)
    else s.(pending := Rest(all), handled := s.handled + Lines(all))
  }

  function ReadAll(chunks: seq<string>): State {
    if chunks == [] then STARTED else Read(ReadAll(chunks[..|chunks| - 1]), chunks[|chunks| - 1])
  }

  function Concat(chunks: seq<string>): string {
    if chunks == [] then [] else Concat(chunks[..|chunks| - 1]) + chunks[|chunks| - 1]
  }

  /** Does the `n`th read push the unfinished line and the new bytes over the limit? */
  predicate Overflows(chunks: seq<string>, n: nat)
    requires n < |chunks|
  {
    |Rest(Concat(chunks[..n]))| + |chunks[n]| > MAX_PENDING
  }

  predicate Fits(chunks: seq<string>) {
    forall n :: 0 <= n < |chunks| ==> !Overflows(chunks, n)
  }

  /**
   * However the stream is cut into reads: the session stays open exactly when
   * no read overflows, and then it has handled the lines of the whole stream
   * and holds exactly the text after its last newline.
   */
  lemma {:induction false} CutsDoNotMatter(chunks: seq<string>)
    ensures ReadAll(chunks).open <==> Fits(chunks)
    ensures Fits(chunks) ==> ReadAll(chunks) == State(true, Rest(Concat(chunks)), Lines(Concat(chunks)))
  {
    if chunks != [] {
      var k := |chunks| - 1;
      var pre, chunk := chunks[..k], chunks[k];
      CutsDoNotMatter(pre);
      assert Fits(chunks) <==> Fits(pre) && !Overflows(chunks, k) by {
        forall n | 0 <= n < k ensures Overflows(chunks, n) == Overflows(pre, n) {
          assert pre[..n] == chunks[..n];
        }
        assert forall n :: 0 <= n < k ==> Overflows(chunks, n) == Overflows(pre, n);
      }
      if Fits(pre) {
        var s := Concat(pre);
        StreamAppend([], s, chunk);
        RestHasNoNewline([], s);
        PlainPrefix([], Rest(s), chunk);
        assert [] + Rest(s) == Rest(s);
      }
    }
  }

  // ---------- What it takes to overflow ----------

  /** Only an unfinished line longer than the limit less one read buffer can overflow. */
  lemma OverflowNeedsLongLine(chunks: seq<string>, n: nat)
    requires n < |chunks| && |chunks[n]| <= READ_BUFFER && Overflows(chunks, n)
    ensures |Rest(Concat(chunks[..n]))| > MAX_PENDING - READ_BUFFER
  {
  }

  /** `n` full reads without a newline. */
  function Blocks(n: nat): seq<string> {
    if n == 0 then [] else Blocks(n - 1) + [seq(READ_BUFFER, _ => 'a')]
  }

  lemma {:induction false} BlocksStayPending(n: nat)
    requires n * READ_BUFFER <= MAX_PENDING
    ensures var x := Concat(Blocks(n));
      ReadAll(Blocks(n)) == State(true, x, []) && |x| == n * READ_BUFFER && NoNewline(x)
  {
    if n > 0 {
      BlocksStayPending(n - 1);
      var x, block := Concat(Blocks(n - 1)), seq(READ_BUFFER, _ => 'a');
      assert Blocks(n)[..|Blocks(n)| - 1] == Blocks(n - 1);
      assert x + block + [] == x + block && [] + (x + block) == x + block;
      PlainPrefix([], x + block, []);
    }
  }

  /** Sixteen full reads of one line, then its newline: the session disconnects with nothing handled. */
  lemma CompletedLineOverflows()
    ensures var chunks := Blocks(16) + ["\n"];
      && !ReadAll(chunks).open && ReadAll(chunks).handled == []
      && |Lines(Concat(chunks))| == 1 && Rest(Concat(chunks)) == []
  {
    var chunks := Blocks(16) + ["\n"];
    var x := Concat(Blocks(16));
    BlocksStayPending(16);
    assert chunks[..|chunks| - 1] == Blocks(16);
    PlainPrefix([], x, "\n");
    assert "\n"[1..] == [];
  }

  // ---------- The session object ----------

  class FeedSession {
    var open: bool
    var pending: string
    /** The lines handed to the line handler, in order. */
    var handled: seq<string>

    function St(): State
      reads this
    {
      State(open, pending, handled)
    }

    constructor ()
      ensures St() == STARTED
    {
      open, pending, handled := true, [], [];
    }

    /** The scan keeps `start` just past the last newline seen. */
    method OnRead(chunk: string)
      modifies this
      ensures St() == Read(old(St()), chunk)
    {
      if !open { return; }
      pending := pending + chunk;
      if |pending| > MAX_PENDING {
        open := false;
        return;
      }
      ghost var was := handled;
      var start := 0;
      for i := 0 to |pending|
        invariant 0 <= start <= i && open && pending == old(pending) + chunk
        invariant was + Lines(pending) == handled + LinesFrom(pending[start..i], pending[i..])
        invariant Rest(pending) == RestFrom(pending[start..i], pending[i..])
      {
        assert pending[i..][0] == pending[i] && pending[i..][1..] == pending[i + 1..];
        if pending[i] == '\n' {
          var lineEnd := i;
          if lineEnd > start && pending[lineEnd - 1] == '\r' {
            lineEnd := lineEnd - 1;
          }
          ChompSlice(pending, start, i);
          handled := handled + [pending[start..lineEnd]];
          start := i + 1;
          assert pending[start..i + 1] == [];
        } else {
          assert pending[start..i] + [pending[i]] == pending[start..i + 1];
        }
      }
      assert pending[start..|pending|] == pending[start..];
      pending := pending[start..];
    }
  }
}
