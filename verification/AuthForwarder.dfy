/** The local forwarding proxy: reads a request head in whatever chunks the client's stream arrives, adds a
    `Proxy-Authorization` header (section 11.7.2 of RFC 9110), and relays the rest unchanged. */
module AuthForwarder {

  newtype byte = x: int | 0 <= x < 256

  type Bytes = seq<byte>

  const CR: byte := 13
  const LF: byte := 10
  const SPACE: byte := 32
  const CRLF: Bytes := [CR, LF]
  const TERMINATOR: Bytes := [CR, LF, CR, LF]
  const CONNECT: Bytes := [67, 79, 78, 78, 69, 67, 84]
  const HEAD_LIMIT: nat := 65536
  const CHUNK_LIMIT: nat := 4096

  function Ascii(s: string): Bytes
    requires forall c :: c in s ==> c as int < 256
  {
    seq(|s|, i requires 0 <= i < |s| => assert s[i] in s; s[i] as int as byte)
  }

  // ---------------------------------------------------------------------------
  // Bytes.
  // ---------------------------------------------------------------------------

  predicate At(s: Bytes, p: Bytes, i: nat) { i + |p| <= |s| && s[i..i + |p|] == p }

  predicate Has(s: Bytes, p: Bytes) { exists i: nat :: i <= |s| && At(s, p, i) }

  /** Where `p` first occurs at or after `from`, as `find` does. */
  function Find(s: Bytes, p: Bytes, from: nat): (i: int)
    ensures i >= 0 ==> from <= i && At(s, p, i) && forall j: nat :: from <= j < i ==> !At(s, p, j)
    ensures i < 0 ==> i == -1 && forall j: nat :: from <= j ==> !At(s, p, j)
    decreases |s| - from
  {
    if from + |p| > |s| then -1
    else if At(s, p, from) then from
    else Find(s, p, from + 1)
  }

  lemma AtInPrefix(s: Bytes, t: Bytes, p: Bytes, i: nat)
    requires i + |p| <= |s|
    ensures At(s + t, p, i) <==> At(s, p, i)
  {
  }

  lemma FindInPrefix(s: Bytes, t: Bytes, p: Bytes)
    requires Find(s, p, 0) >= 0
    ensures Find(s + t, p, 0) == Find(s, p, 0)
  {
    var i, j := Find(s, p, 0), Find(s + t, p, 0);
    AtInPrefix(s, t, p, i);
    if 0 <= j < i {
      AtInPrefix(s, t, p, j);
    }
  }

  function Concat(chunks: seq<Bytes>): Bytes {
    if chunks == [] then [] else chunks[0] + Concat(chunks[1..])
  }

  lemma {:induction false} ConcatAppend(a: seq<Bytes>, b: seq<Bytes>)
    ensures Concat(a + b) == Concat(a) + Concat(b)
  {
    if a == [] {
      assert a + b == b;
    } else {
      ConcatAppend(a[1..], b);
      assert (a + b)[1..] == a[1..] + b && (a + b)[0] == a[0];
    }
  }

  /** How a stream may arrive: non-empty pieces no longer than one `recv`. */
  predicate Chunking(chunks: seq<Bytes>) {
    forall i :: 0 <= i < |chunks| ==> 1 <= |chunks[i]| <= CHUNK_LIMIT
  }

  // ---------------------------------------------------------------------------
  // The request.
  // ---------------------------------------------------------------------------

  /** What happens to a request: the connection is closed with nothing sent (the stream ended in the head),
      the handler dies of an index error, or these bytes are sent upstream, the rest of the stream included. */
  datatype Fate = Dropped | Crashed | Sent(upstream: Bytes)

  predicate HeadComplete(head: Bytes) { Has(head, TERMINATOR) || |head| > HEAD_LIMIT }

  /** The number of chunks the head loop takes; one more than there are if the stream ends first. */
  function HeadChunks(chunks: seq<Bytes>, taken: nat): (n: nat)
    requires taken <= |chunks|
    ensures taken <= n <= |chunks| + 1
    ensures n <= |chunks| ==> HeadComplete(Concat(chunks[..n]))
    ensures forall m: nat :: taken <= m < n && m <= |chunks| ==> !HeadComplete(Concat(chunks[..m]))
    decreases |chunks| - taken
  {
    if HeadComplete(Concat(chunks[..taken])) then taken
    else if taken == |chunks| then taken + 1
    else HeadChunks(chunks, taken + 1)
  }

  function UpToFirst(s: Bytes, p: Bytes): Bytes {
    if Find(s, p, 0) < 0 then s else s[..Find(s, p, 0)]
  }

  /** The pieces between single spaces. */
  function SplitSpaces(s: Bytes): (parts: seq<Bytes>)
    ensures |parts| >= 1
  {
    var i := Find(s, [SPACE], 0);
    if i < 0 then [s] else [s[..i]] + SplitSpaces(s[i + 1..])
  }

  function UpperByte(b: byte): byte { if 97 <= b <= 122 then b - 32 else b }

  function Upper(s: Bytes): Bytes { seq(|s|, i requires 0 <= i < |s| => UpperByte(s[i])) }

  function RequestLine(head: Bytes): Bytes { UpToFirst(head, CRLF) }

  predicate IsConnect(line: Bytes) { Upper(SplitSpaces(line)[0]) == CONNECT }

  function AuthHeader(auth: Bytes): Bytes { Ascii("Proxy-Authorization: Basic ") + auth + CRLF }

  /** `head.replace(CRLF, CRLF + inject, 1)` */
  function Insert(head: Bytes, inject: Bytes): Bytes {
    var i := Find(head, CRLF, 0);
    if i < 0 then head else head[..i + 2] + inject + head[i + 2..]
  }

  function ConnectRequest(target: Bytes, auth: Bytes): Bytes {
    Ascii("CONNECT ") + target + Ascii(" HTTP/1.1") + CRLF + Ascii("Host: ") + target + CRLF
    + AuthHeader(auth) + Ascii("Proxy-Connection: Keep-Alive") + TERMINATOR
  }

  /** What is sent upstream for this head. */
  function Rewrite(head: Bytes, auth: Bytes): Fate {
    var line := RequestLine(head);
    if IsConnect(line) then
      if |SplitSpaces(line)| < 2 then Crashed else Sent(ConnectRequest(SplitSpaces(line)[1], auth))
    else Sent(Insert(head, AuthHeader(auth)))
  }

  /** The whole life of the client's stream. */
  function Forward(chunks: seq<Bytes>, auth: Bytes): Fate {
    var n := HeadChunks(chunks, 0);
    if n > |chunks| then Dropped
    else match Rewrite(Concat(chunks[..n]), auth)
      case Sent(up) => Sent(up + Concat(chunks[n..]))
      case other => other
  }

  // ---------------------------------------------------------------------------
  // Transparency and independence of the chunks.
  // ---------------------------------------------------------------------------

  /** The first line is known once this many bytes have arrived, before the head limit cuts. */
  predicate LineArrives(stream: Bytes) {
    0 <= Find(stream, CRLF, 0) && Find(stream, CRLF, 0) + 2 <= HEAD_LIMIT + 1
  }

  lemma TerminatorHasLine(s: Bytes)
    requires Has(s, TERMINATOR)
    ensures Find(s, CRLF, 0) >= 0
  {
    var i: nat :| i <= |s| && At(s, TERMINATOR, i);
    assert s[i..i + 2] == s[i..i + 4][..2];
    assert At(s, CRLF, i);
  }

  lemma HeadIsPrefix(chunks: seq<Bytes>, n: nat)
    requires n <= |chunks|
    ensures Concat(chunks) == Concat(chunks[..n]) + Concat(chunks[n..])
  {
    ConcatAppend(chunks[..n], chunks[n..]);
    assert chunks == chunks[..n] + chunks[n..];
  }

  /** The head that is read contains the whole first line of the stream. */
  lemma HeadHasLine(stream: Bytes, head: Bytes, rest: Bytes)
    requires stream == head + rest && LineArrives(stream) && HeadComplete(head)
    ensures Find(head, CRLF, 0) == Find(stream, CRLF, 0)
  {
    if Has(head, TERMINATOR) {
      TerminatorHasLine(head);
    } else {
      AtInPrefix(head, rest, CRLF, Find(stream, CRLF, 0));
    }
    FindInPrefix(head, rest, CRLF);
  }

  lemma InsertIntoHead(head: Bytes, rest: Bytes, inject: Bytes)
    requires LineArrives(head + rest) && HeadComplete(head)
    ensures Insert(head, inject) + rest == Insert(head + rest, inject)
  {
    HeadHasLine(head + rest, head, rest);
    SpliceIntoPrefix(head, rest, inject, Find(head, CRLF, 0) + 2);
  }

  lemma SpliceIntoPrefix(head: Bytes, rest: Bytes, inject: Bytes, k: nat)
    requires k <= |head|
    ensures head[..k] + inject + head[k..] + rest == (head + rest)[..k] + inject + (head + rest)[k..]
  {
  }

  lemma LineOfHead(head: Bytes, rest: Bytes)
    requires LineArrives(head + rest) && HeadComplete(head)
    ensures RequestLine(head) == RequestLine(head + rest)
  {
    HeadHasLine(head + rest, head, rest);
  }

  /** For every way the stream may be cut into chunks: if its first line ends within the head limit, the
      upstream proxy receives the request line, its CRLF, exactly one inserted header, and then the rest of
      the stream byte for byte; the only other possibility is a stream that ends inside its head, of which
      nothing is sent. */
  lemma ForwardIsInsertion(chunks: seq<Bytes>, auth: Bytes)
    requires LineArrives(Concat(chunks)) && !IsConnect(RequestLine(Concat(chunks)))
    ensures Forward(chunks, auth) ==
            if HeadComplete(Concat(chunks)) then Sent(Insert(Concat(chunks), AuthHeader(auth))) else Dropped
  {
    var n := HeadChunks(chunks, 0);
    if n > |chunks| {
      assert chunks[..|chunks|] == chunks;
      assert !HeadComplete(Concat(chunks[..|chunks|]));
    } else {
      var head, rest := Concat(chunks[..n]), Concat(chunks[n..]);
      HeadIsPrefix(chunks, n);
      LineOfHead(head, rest);
      InsertIntoHead(head, rest, AuthHeader(auth));
      CompleteHeadCompletesStream(head, rest);
    }
  }

  lemma CompleteHeadCompletesStream(head: Bytes, rest: Bytes)
    requires HeadComplete(head)
    ensures HeadComplete(head + rest)
  {
    if Has(head, TERMINATOR) {
      var i: nat :| i <= |head| && At(head, TERMINATOR, i);
      AtInPrefix(head, rest, TERMINATOR, i);
    }
  }

  lemma SpliceRestores(s: Bytes, inject: Bytes, k: nat)
    requires k <= |s|
    ensures var out, n := s[..k] + inject + s[k..], |inject|;
            && k + n <= |out| && out[k..k + n] == inject && out[..k] + out[k + n..] == s && out[..k] == s[..k]
  {
  }

  lemma SameLine(s: Bytes, t: Bytes, i: nat)
    requires At(s, CRLF, i) && Find(s, CRLF, 0) == i && i + 2 <= |t| && t[..i + 2] == s[..i + 2]
    ensures Find(t, CRLF, 0) == i && RequestLine(t) == RequestLine(s)
  {
    AtEnd(s, i);
    assert s == s[..i + 2] + s[i + 2..] && t == t[..i + 2] + t[i + 2..];
    FindInPrefix(s[..i + 2], s[i + 2..], CRLF);
    FindInPrefix(t[..i + 2], t[i + 2..], CRLF);
    assert t[..i] == t[..i + 2][..i] == s[..i];
  }

  /** The inserted header stands right behind the request line, which stays what it was; deleting it gives
      the client's stream back. */
  lemma DeletionRestores(stream: Bytes, inject: Bytes)
    requires Has(stream, TERMINATOR)
    ensures var i, out, n := Find(stream, CRLF, 0), Insert(stream, inject), |inject|;
            && 0 <= i && i + 2 + n <= |out| && out[i + 2..i + 2 + n] == inject
            && out[..i + 2] + out[i + 2 + n..] == stream
            && Find(out, CRLF, 0) == i && RequestLine(out) == RequestLine(stream)
  {
    TerminatorHasLine(stream);
    var i := Find(stream, CRLF, 0);
    SpliceRestores(stream, inject, i + 2);
    SameLine(stream, Insert(stream, inject), i);
  }

  lemma AtEnd(s: Bytes, i: nat)
    requires At(s, CRLF, i)
    ensures Find(s[..i + 2], CRLF, 0) >= 0
  {
    assert s[..i + 2][i..i + 2] == s[i..i + 2];
    assert At(s[..i + 2], CRLF, i);
  }

  // When is the header inserted, however the stream is cut?

  ghost predicate AlwaysInserted(stream: Bytes, auth: Bytes) {
    forall c :: Chunking(c) && Concat(c) == stream ==> Forward(c, auth) == Sent(Insert(stream, AuthHeader(auth)))
  }

  /** Cuts of 4096 bytes. */
  function Cut(s: Bytes): (chunks: seq<Bytes>)
    ensures Chunking(chunks) && Concat(chunks) == s
  {
    if s == [] then []
    else if |s| <= CHUNK_LIMIT then assert [s][1..] == []; [s]
    else
      var rest := Cut(s[CHUNK_LIMIT..]);
      assert ([s[..CHUNK_LIMIT]] + rest)[1..] == rest;
      [s[..CHUNK_LIMIT]] + rest
  }

  /** Cuts of 4096 bytes, except that one cut falls at `k`. */
  function CutAt(s: Bytes, k: nat): (chunks: seq<Bytes>)
    requires k <= |s|
    ensures Chunking(chunks) && Concat(chunks) == s
  {
    ConcatAppend(Cut(s[..k]), Cut(s[k..]));
    Cut(s[..k]) + Cut(s[k..])
  }

  /** The last piece of a regular cut is what is left of the last full 4096 bytes. */
  lemma {:induction false} CutWithoutLast(s: Bytes)
    requires s != []
    ensures var c := Cut(s);
            c != [] && Concat(c[..|c| - 1]) == s[..(|s| - 1) / CHUNK_LIMIT * CHUNK_LIMIT]
  {
    var c := Cut(s);
    if |s| <= CHUNK_LIMIT {
      assert c[..|c| - 1] == [];
    } else {
      var rest := Cut(s[CHUNK_LIMIT..]);
      CutWithoutLast(s[CHUNK_LIMIT..]);
      assert c[..|c| - 1] == [s[..CHUNK_LIMIT]] + rest[..|rest| - 1];
      assert c[..|c| - 1][1..] == rest[..|rest| - 1];
      assert (|s| - 1) / CHUNK_LIMIT == 1 + (|s| - CHUNK_LIMIT - 1) / CHUNK_LIMIT;
    }
  }

  /** A cut behind byte 65537 ends the head there, if no terminator has come. */
  lemma HeadEndsAtCut(s: Bytes)
    requires |s| > HEAD_LIMIT && !Has(s[..HEAD_LIMIT + 1], TERMINATOR)
    ensures var c := CutAt(s, HEAD_LIMIT + 1);
            var n := HeadChunks(c, 0);
            n <= |c| && Concat(c[..n]) == s[..HEAD_LIMIT + 1]
  {
    var k := HEAD_LIMIT + 1;
    var a, b := Cut(s[..k]), Cut(s[k..]);
    var c := a + b;
    CutWithoutLast(s[..k]);
    assert c[..|a|] == a && Concat(a[..|a| - 1]) == s[..k][..HEAD_LIMIT];
    var n := HeadChunks(c, 0);
    if n < |a| {
      var front := a[..|a| - 1];
      assert c[..n] == front[..n];
      HeadIsPrefix(front, n);
      CompleteHeadCompletesStream(Concat(front[..n]), Concat(front[n..]));
      NoTerminatorInPrefix(s[..k], HEAD_LIMIT);
      assert false;
    }
  }

  lemma NoTerminatorInPrefix(s: Bytes, n: nat)
    requires n <= |s| && !Has(s, TERMINATOR)
    ensures !Has(s[..n], TERMINATOR)
  {
    if i: nat :| i <= n && At(s[..n], TERMINATOR, i) {
      assert s == s[..n] + s[n..];
      AtInPrefix(s[..n], s[n..], TERMINATOR, i);
    }
  }

  /** A line of more than seven bytes and anything longer have the same first word, or both have a long one. */
  lemma FirstWordDecidedEarly(line: Bytes, more: Bytes)
    requires |line| > 7
    ensures var v, w := UpToFirst(line, [SPACE]), UpToFirst(line + more, [SPACE]);
            v == w || (|v| > 7 && |w| > 7)
  {
    var all := line + more;
    var i, j := Find(line, [SPACE], 0), Find(all, [SPACE], 0);
    if i >= 0 {
      FindInPrefix(line, more, [SPACE]);
      assert line[..i] == all[..i];
    } else if 0 <= j < |line| {
      AtInPrefix(line, more, [SPACE], j);
    }
  }

  lemma LongWordIsNotConnect(word: Bytes)
    requires |word| > 7
    ensures Upper(word) != CONNECT
  {
  }

  lemma ConnectByFirstWord(line: Bytes)
    ensures IsConnect(line) <==> Upper(UpToFirst(line, [SPACE])) == CONNECT
  {
  }

  /** Whether a long line is a CONNECT does not depend on what follows it. */
  lemma ConnectDecidedEarly(line: Bytes, more: Bytes)
    requires |line| > 7
    ensures IsConnect(line) <==> IsConnect(line + more)
  {
    var v, w := UpToFirst(line, [SPACE]), UpToFirst(line + more, [SPACE]);
    FirstWordDecidedEarly(line, more);
    ConnectByFirstWord(line);
    ConnectByFirstWord(line + more);
    if v != w {
      LongWordIsNotConnect(v);
      LongWordIsNotConnect(w);
    }
  }

  /** The header is inserted for every way of cutting the stream if and only if the request line and its
      CRLF fit into the first 65537 bytes: a longer line can be forwarded without credentials. */
  lemma AlwaysInsertedIff(stream: Bytes, auth: Bytes)
    requires Has(stream, TERMINATOR) && !IsConnect(RequestLine(stream))
    ensures AlwaysInserted(stream, auth) <==> |RequestLine(stream)| + 2 <= 65537
  {
    TerminatorHasLine(stream);
    if LineArrives(stream) {
      forall c | Chunking(c) && Concat(c) == stream
        ensures Forward(c, auth) == Sent(Insert(stream, AuthHeader(auth)))
      {
        ForwardIsInsertion(c, auth);
      }
    } else {
      LongLineSlipsThrough(stream, auth);
    }
  }

  lemma LongLineSlipsThrough(stream: Bytes, auth: Bytes)
    requires Find(stream, CRLF, 0) + 2 > HEAD_LIMIT + 1 && !IsConnect(RequestLine(stream))
    ensures Forward(CutAt(stream, HEAD_LIMIT + 1), auth) == Sent(stream)
    ensures !AlwaysInserted(stream, auth)
  {
    var k := HEAD_LIMIT + 1;
    var c, head, i := CutAt(stream, k), stream[..k], Find(stream, CRLF, 0);
    assert stream == head + stream[k..];
    if Find(head, CRLF, 0) >= 0 {
      FindInPrefix(head, stream[k..], CRLF);
    }
    if Has(head, TERMINATOR) {
      TerminatorHasLine(head);
    }
    HeadEndsAtCut(stream);
    HeadIsPrefix(c, HeadChunks(c, 0));
    assert Concat(c[HeadChunks(c, 0)..]) == stream[k..];
    NotConnectWhenCut(stream, k);
    var inject := AuthHeader(auth);
    assert |inject| >= 2;
    assert |Insert(stream, inject)| == |stream| + |inject|;
    assert Forward(c, auth) == Sent(stream);
  }

  lemma NotConnectWhenCut(stream: Bytes, k: nat)
    requires 8 < k <= |stream| && Find(stream, CRLF, 0) + 2 > k && !IsConnect(RequestLine(stream))
    requires Find(stream[..k], CRLF, 0) < 0
    ensures !IsConnect(RequestLine(stream[..k]))
  {
    LinesRelated(stream, k);
    SameMethod(RequestLine(stream), stream[..k]);
  }

  lemma LinesRelated(stream: Bytes, k: nat)
    requires 8 < k <= |stream| && Find(stream, CRLF, 0) + 2 > k && Find(stream[..k], CRLF, 0) < 0
    ensures var line := RequestLine(stream); |line| > 7 && (stream[..k] <= line || line <= stream[..k])
  {
  }

  lemma SameMethod(a: Bytes, b: Bytes)
    requires (a <= b || b <= a) && |a| > 7 && |b| > 7
    ensures IsConnect(a) <==> IsConnect(b)
  {
    if a <= b {
      assert b == a + b[|a|..];
      ConnectDecidedEarly(a, b[|a|..]);
    } else {
      assert a == b + a[|b|..];
      ConnectDecidedEarly(b, a[|b|..]);
    }
  }

  // CONNECT (section 9.3.6 of RFC 9110): when is what follows the head relayed whole?

  /** Where the head ends: behind its terminator. */
  function HeadEnd(stream: Bytes): nat { Find(stream, TERMINATOR, 0) + 4 }

  function Target(stream: Bytes): Bytes
    requires |SplitSpaces(RequestLine(stream))| >= 2
  {
    SplitSpaces(RequestLine(stream))[1]
  }

  /** The rewritten request, and then exactly what follows the head. */
  function Transparent(stream: Bytes, auth: Bytes): Fate
    requires |SplitSpaces(RequestLine(stream))| >= 2 && HeadEnd(stream) <= |stream|
  {
    Sent(ConnectRequest(Target(stream), auth) + stream[HeadEnd(stream)..])
  }

  /** How much has arrived with the first `m` chunks. */
  function Arrived(chunks: seq<Bytes>, m: nat): nat
    requires m <= |chunks|
  {
    |Concat(chunks[..m])|
  }

  lemma ArrivedGrows(chunks: seq<Bytes>, m: nat, n: nat)
    requires m <= n <= |chunks|
    ensures Arrived(chunks, m) <= Arrived(chunks, n)
  {
    HeadIsPrefix(chunks[..n], m);
    assert chunks[..n][..m] == chunks[..m];
  }

  lemma EndWithin(stream: Bytes)
    requires Has(stream, TERMINATOR)
    ensures HeadEnd(stream) <= |stream|
  {
  }

  lemma HasBehindEnd(head: Bytes, rest: Bytes)
    requires Has(head + rest, TERMINATOR)
    ensures HeadEnd(head + rest) <= |head + rest|
    ensures Has(head, TERMINATOR) <==> |head| >= HeadEnd(head + rest)
  {
    var i := Find(head + rest, TERMINATOR, 0);
    if i + 4 <= |head| {
      AtInPrefix(head, rest, TERMINATOR, i);
    }
    if Has(head, TERMINATOR) {
      var j: nat :| j <= |head| && At(head, TERMINATOR, j);
      AtInPrefix(head, rest, TERMINATOR, j);
    }
  }

  /** Some chunk ends where the head ends, and the head limit does not cut before. */
  ghost predicate EndsTogether(chunks: seq<Bytes>, end: nat) {
    && (exists m: nat :: m <= |chunks| && Arrived(chunks, m) == end)
    && (forall m: nat :: m <= |chunks| && Arrived(chunks, m) < end ==> Arrived(chunks, m) <= HEAD_LIMIT)
  }

  lemma HeadCompleteIff(chunks: seq<Bytes>, m: nat)
    requires m <= |chunks| && Has(Concat(chunks), TERMINATOR)
    ensures HeadComplete(Concat(chunks[..m])) <==>
            Arrived(chunks, m) >= HeadEnd(Concat(chunks)) || Arrived(chunks, m) > HEAD_LIMIT
  {
    HeadIsPrefix(chunks, m);
    HasBehindEnd(Concat(chunks[..m]), Concat(chunks[m..]));
  }

  lemma HeadIsFound(chunks: seq<Bytes>)
    requires Has(Concat(chunks), TERMINATOR)
    ensures HeadChunks(chunks, 0) <= |chunks|
  {
    assert chunks[..|chunks|] == chunks;
  }

  lemma StopsAtEnd(chunks: seq<Bytes>, n: nat, end: nat)
    requires Has(Concat(chunks), TERMINATOR) && end == HeadEnd(Concat(chunks))
    requires n == HeadChunks(chunks, 0) && n <= |chunks| && Arrived(chunks, n) == end
    ensures EndsTogether(chunks, end)
  {
    forall m: nat | m <= |chunks| && Arrived(chunks, m) < end
      ensures Arrived(chunks, m) <= HEAD_LIMIT
    {
      if m >= n { ArrivedGrows(chunks, n, m); }
      HeadCompleteIff(chunks, m);
    }
  }

  lemma EndStopsIt(chunks: seq<Bytes>, n: nat, end: nat)
    requires Has(Concat(chunks), TERMINATOR) && end == HeadEnd(Concat(chunks))
    requires n == HeadChunks(chunks, 0) && n <= |chunks| && EndsTogether(chunks, end)
    ensures Arrived(chunks, n) == end
  {
    var m: nat :| m <= |chunks| && Arrived(chunks, m) == end;
    HeadCompleteIff(chunks, n);
    HeadCompleteIff(chunks, m);
    ArrivedGrows(chunks, n, m);
  }

  /** The head loop stops right at the end of the head if and only if the chunks end together with it. */
  lemma StopsAtEndIff(chunks: seq<Bytes>)
    requires Has(Concat(chunks), TERMINATOR)
    ensures HeadChunks(chunks, 0) <= |chunks|
    ensures Arrived(chunks, HeadChunks(chunks, 0)) == HeadEnd(Concat(chunks)) <==>
            EndsTogether(chunks, HeadEnd(Concat(chunks)))
  {
    var n, end := HeadChunks(chunks, 0), HeadEnd(Concat(chunks));
    HeadIsFound(chunks);
    if Arrived(chunks, n) == end {
      StopsAtEnd(chunks, n, end);
    }
    if EndsTogether(chunks, end) {
      EndStopsIt(chunks, n, end);
    }
  }

  /** The rewritten request is followed by exactly the bytes behind the head if and only if a chunk ends where
      the head ends and no earlier chunk passes the head limit; bytes that arrive in the same chunk behind the
      head are lost. */
  lemma ConnectTransparentIff(chunks: seq<Bytes>, auth: Bytes)
    requires LineArrives(Concat(chunks)) && Has(Concat(chunks), TERMINATOR)
    requires IsConnect(RequestLine(Concat(chunks))) && |SplitSpaces(RequestLine(Concat(chunks)))| >= 2
    ensures HeadEnd(Concat(chunks)) <= |Concat(chunks)|
    ensures Forward(chunks, auth) == Transparent(Concat(chunks), auth)
            <==> EndsTogether(chunks, HeadEnd(Concat(chunks)))
  {
    var stream, n := Concat(chunks), HeadChunks(chunks, 0);
    StopsAtEndIff(chunks);
    EndWithin(stream);
    var head, rest := Concat(chunks[..n]), Concat(chunks[n..]);
    HeadIsPrefix(chunks, n);
    LineOfHead(head, rest);
    SuffixFromLength(ConnectRequest(Target(stream), auth), stream, head, rest, HeadEnd(stream));
  }

  lemma SuffixFromLength(request: Bytes, stream: Bytes, head: Bytes, rest: Bytes, end: nat)
    requires stream == head + rest && end <= |stream|
    ensures request + rest == request + stream[end..] <==> |head| == end
  {
  }

  ghost predicate AlwaysTransparent(stream: Bytes, auth: Bytes)
    requires |SplitSpaces(RequestLine(stream))| >= 2 && HeadEnd(stream) <= |stream|
  {
    forall c :: Chunking(c) && Concat(c) == stream ==> Forward(c, auth) == Transparent(stream, auth)
  }

  // A cut that hides the end of the head inside a chunk.

  function Straddle(s: Bytes, end: nat): (chunks: seq<Bytes>)
    requires 1 <= end < |s|
    ensures Chunking(chunks) && Concat(chunks) == s
  {
    var a, x, b := Cut(s[..end - 1]), s[end - 1..end + 1], Cut(s[end + 1..]);
    assert [x][1..] == [];
    ConcatAppend(a, [x]);
    ConcatAppend(a + [x], b);
    assert s == s[..end - 1] + x + s[end + 1..];
    a + [x] + b
  }

  lemma StraddleMissesEnd(s: Bytes, end: nat)
    requires 1 <= end < |s|
    ensures !EndsTogether(Straddle(s, end), end)
  {
    var a, x := Cut(s[..end - 1]), s[end - 1..end + 1];
    var c, k := Straddle(s, end), |Cut(s[..end - 1])|;
    var after := k + 1;
    assert c[..k] == a && c[..after] == a + [x] && [x][1..] == [];
    ConcatAppend(a, [x]);
    forall m: nat | m <= |c|
      ensures Arrived(c, m) != end
    {
      if m <= k { ArrivedGrows(c, m, k); } else { ArrivedGrows(c, after, m); }
    }
  }

  lemma CutAtPassesLimit(s: Bytes, k: nat)
    requires k <= |s|
    ensures exists m: nat :: m <= |CutAt(s, k)| && Arrived(CutAt(s, k), m) == k
  {
    var c, m := CutAt(s, k), |Cut(s[..k])|;
    assert c[..m] == Cut(s[..k]);
    assert Arrived(c, m) == k;
  }

  // A request line beyond the head limit.

  lemma WordGrows(a: Bytes, b: Bytes)
    ensures UpToFirst(a, [SPACE]) <= UpToFirst(a + b, [SPACE])
  {
    var i, j := Find(a, [SPACE], 0), Find(a + b, [SPACE], 0);
    if i >= 0 {
      FindInPrefix(a, b, [SPACE]);
    } else if 0 <= j < |a| {
      AtInPrefix(a, b, [SPACE], j);
    }
  }

  predicate NoSpace(w: Bytes) { forall k :: 0 <= k < |w| ==> w[k] != SPACE }

  lemma WordHasNoSpace(s: Bytes)
    ensures NoSpace(UpToFirst(s, [SPACE]))
  {
    var w := UpToFirst(s, [SPACE]);
    forall k | 0 <= k < |w|
      ensures w[k] != SPACE
    {
      assert s[k..k + 1] == [s[k]];
      assert !At(s, [SPACE], k);
    }
  }

  /** The target of a CONNECT line is the word behind its eighth byte. */
  lemma TargetIsSecondWord(line: Bytes)
    requires IsConnect(line) && |SplitSpaces(line)| >= 2
    ensures |line| >= 8 && SplitSpaces(line)[1] == UpToFirst(line[8..], [SPACE])
  {
  }

  lemma SecondPart(a: Bytes, b: Bytes, c: Bytes, d: Bytes)
    requires c != []
    ensures var r := a + b + c + d; r[|a|..|a| + |b|] == b && r[|a| + |b|] == c[0]
  {
  }

  lemma RequestStart(target: Bytes, auth: Bytes)
    ensures var r := ConnectRequest(target, auth);
            |r| > 8 + |target| && r[8..8 + |target|] == target && r[8 + |target|] == SPACE
  {
    var start, version := Ascii("CONNECT "), Ascii(" HTTP/1.1");
    var tail := CRLF + Ascii("Host: ") + target + CRLF + AuthHeader(auth)
                + Ascii("Proxy-Connection: Keep-Alive") + TERMINATOR;
    RequestParts(start, target, version, auth, tail);
    SecondPart(start, target, version, tail);
  }

  lemma RequestParts(start: Bytes, target: Bytes, version: Bytes, auth: Bytes, tail: Bytes)
    requires start == Ascii("CONNECT ") && version == Ascii(" HTTP/1.1")
    requires tail == CRLF + Ascii("Host: ") + target + CRLF + AuthHeader(auth)
                     + Ascii("Proxy-Connection: Keep-Alive") + TERMINATOR
    ensures ConnectRequest(target, auth) == start + target + version + tail
    ensures |start| == 8 && |version| == 9 && version[0] == SPACE
  {
  }

  /** Requests to two targets, one a proper prefix of the other, differ in the byte behind the shorter one. */
  lemma RequestsDiffer(t: Bytes, u: Bytes, auth: Bytes, x: Bytes, y: Bytes)
    requires t < u && NoSpace(u)
    ensures ConnectRequest(t, auth) + x != ConnectRequest(u, auth) + y
  {
    RequestStart(t, auth);
    RequestStart(u, auth);
    var k := 8 + |t|;
    assert ConnectRequest(u, auth)[k] == ConnectRequest(u, auth)[8..8 + |u|][|t|] == u[|t|];
    assert (ConnectRequest(t, auth) + x)[k] == SPACE && (ConnectRequest(u, auth) + y)[k] == u[|t|];
  }

  lemma LengthsDiffer(r: Bytes, x: Bytes, y: Bytes)
    requires |x| != |y|
    ensures r + x != r + y
  {
  }

  lemma SecondWordGrows(line: Bytes, more: Bytes, t: Bytes, u: Bytes)
    requires |line| >= 8 && t == UpToFirst(line[8..], [SPACE]) && u == UpToFirst((line + more)[8..], [SPACE])
    ensures t <= u && NoSpace(u)
  {
    assert (line + more)[8..] == line[8..] + more;
    WordGrows(line[8..], more);
    WordHasNoSpace((line + more)[8..]);
  }

  lemma TargetsDiffer(t: Bytes, u: Bytes, auth: Bytes, x: Bytes, y: Bytes)
    requires t <= u && NoSpace(u) && |x| != |y|
    ensures ConnectRequest(t, auth) + x != ConnectRequest(u, auth) + y
  {
    if t == u {
      LengthsDiffer(ConnectRequest(t, auth), x, y);
    } else {
      RequestsDiffer(t, u, auth, x, y);
    }
  }

  /** Of two lines, one a prefix of the other, both of them CONNECT requests: different targets or the same, what is
      sent is not the same if the rests have different lengths. */
  lemma LinesDiffer(line: Bytes, more: Bytes, auth: Bytes, x: Bytes, y: Bytes)
    requires IsConnect(line) && |SplitSpaces(line)| >= 2
    requires IsConnect(line + more) && |SplitSpaces(line + more)| >= 2 && |x| != |y|
    ensures ConnectRequest(SplitSpaces(line)[1], auth) + x != ConnectRequest(SplitSpaces(line + more)[1], auth) + y
  {
    var t, u := SplitSpaces(line)[1], SplitSpaces(line + more)[1];
    TargetIsSecondWord(line);
    TargetIsSecondWord(line + more);
    SecondWordGrows(line, more, t, u);
    TargetsDiffer(t, u, auth, x, y);
  }

  lemma CutLineDiffers(line: Bytes, head: Bytes, auth: Bytes, rest: Bytes, tail: Bytes)
    requires (head <= line || line <= head) && |head| > 7 && |line| > 7 && |rest| != |tail|
    requires IsConnect(line) && |SplitSpaces(line)| >= 2 && Find(head, CRLF, 0) < 0
    ensures IsConnect(head)
    ensures Rewrite(head, auth) == Crashed
            || (Rewrite(head, auth).Sent?
                && Rewrite(head, auth).upstream + rest != ConnectRequest(SplitSpaces(line)[1], auth) + tail)
  {
    SameMethod(line, head);
    if head <= line {
      assert line == head + line[|head|..];
      if |SplitSpaces(head)| >= 2 {
        LinesDiffer(head, line[|head|..], auth, rest, tail);
      }
    } else {
      assert head == line + head[|line|..];
      if |SplitSpaces(head)| >= 2 {
        LinesDiffer(line, head[|line|..], auth, tail, rest);
      }
    }
  }

  lemma LongConnectFails(stream: Bytes, auth: Bytes)
    requires Has(stream, TERMINATOR) && !LineArrives(stream) && HeadEnd(stream) <= |stream|
    requires IsConnect(RequestLine(stream)) && |SplitSpaces(RequestLine(stream))| >= 2
    ensures !AlwaysTransparent(stream, auth)
  {
    var k := HEAD_LIMIT + 1;
    TerminatorHasLine(stream);
    var c, head := CutAt(stream, k), stream[..k];
    assert stream == head + stream[k..];
    if Find(head, CRLF, 0) >= 0 {
      FindInPrefix(head, stream[k..], CRLF);
    }
    if Has(head, TERMINATOR) {
      TerminatorHasLine(head);
    }
    HasBehindEnd(head, stream[k..]);
    HeadEndsAtCut(stream);
    HeadIsPrefix(c, HeadChunks(c, 0));
    assert Concat(c[HeadChunks(c, 0)..]) == stream[k..];
    LinesRelated(stream, k);
    CutLineDiffers(RequestLine(stream), head, auth, stream[k..], stream[HeadEnd(stream)..]);
    assert Forward(c, auth) != Transparent(stream, auth);
  }

  /** A CONNECT is relayed transparently for every way of cutting its stream if and only if nothing follows the head
      and the head is no longer than 65537 bytes. */
  lemma ConnectAlwaysTransparentIff(stream: Bytes, auth: Bytes)
    requires Has(stream, TERMINATOR) && IsConnect(RequestLine(stream)) && |SplitSpaces(RequestLine(stream))| >= 2
    ensures HeadEnd(stream) <= |stream|
    ensures AlwaysTransparent(stream, auth) <==> |stream| == HeadEnd(stream) <= 65537
  {
    var end, k := HeadEnd(stream), HEAD_LIMIT + 1;
    EndWithin(stream);
    if !LineArrives(stream) {
      LongConnectFails(stream, auth);
      LineInHead(stream);
    } else if end > k {
      ConnectTransparentIff(CutAt(stream, k), auth);
      CutAtPassesLimit(stream, k);
    } else if |stream| > end {
      ConnectTransparentIff(Straddle(stream, end), auth);
      StraddleMissesEnd(stream, end);
    } else {
      forall c | Chunking(c) && Concat(c) == stream
        ensures Forward(c, auth) == Transparent(stream, auth)
      {
        assert c[..|c|] == c;
        assert Arrived(c, |c|) == end;
        ConnectTransparentIff(c, auth);
      }
    }
  }

  /** The first line ends before the head does. */
  lemma LineInHead(stream: Bytes)
    requires Has(stream, TERMINATOR)
    ensures 0 <= Find(stream, CRLF, 0) && Find(stream, CRLF, 0) + 4 <= HeadEnd(stream)
  {
    var i := Find(stream, TERMINATOR, 0);
    assert stream[i..i + 2] == stream[i..i + 4][..2];
    assert At(stream, CRLF, i);
  }

  // What the added bytes say.

  /** Text as ASCII bytes. */
  predicate Spells(b: Bytes, s: string) { |b| == |s| && forall i :: 0 <= i < |s| ==> b[i] as int == s[i] as int }

  /** The header is the name of section 11.7.2 of RFC 9110, the scheme of section 2 of RFC 7617, the credentials, and a
      line end. */
  lemma HeaderSays(auth: Bytes, credentials: string)
    requires Spells(auth, credentials)
    ensures Spells(AuthHeader(auth), "Proxy-Authorization: Basic " + credentials + "\r\n")
  {
    var start: string := "Proxy-Authorization: Basic ";
    SpellsAppend(Ascii(start), start, auth, credentials);
    SpellsAppend(Ascii(start) + auth, start + credentials, CRLF, "\r\n");
  }

  lemma SpellsAppend(a: Bytes, s: string, b: Bytes, t: string)
    requires Spells(a, s) && Spells(b, t)
    ensures Spells(a + b, s + t)
  {
  }

  /** The rewritten CONNECT names its target twice, carries the header, and ends in an empty line. */
  lemma ConnectSays(target: Bytes, host: string, auth: Bytes, credentials: string)
    requires Spells(target, host) && Spells(auth, credentials)
    ensures Spells(ConnectRequest(target, auth),
                   "CONNECT " + host + " HTTP/1.1" + "\r\n" + "Host: " + host + "\r\n"
                   + ("Proxy-Authorization: Basic " + credentials + "\r\n") + "Proxy-Connection: Keep-Alive" + "\r\n\r\n")
  {
    HeaderSays(auth, credentials);
    var header: string := "Proxy-Authorization: Basic " + credentials + "\r\n";
    ConnectPieces(target, host, AuthHeader(auth), header, Ascii("CONNECT "), "CONNECT ", Ascii(" HTTP/1.1"), " HTTP/1.1",
                  Ascii("Host: "), "Host: ", Ascii("Proxy-Connection: Keep-Alive"), "Proxy-Connection: Keep-Alive");
  }

  lemma ConnectPieces(target: Bytes, host: string, h: Bytes, header: string, c: Bytes, connect: string, v: Bytes,
                      version: string, n: Bytes, name: string, k: Bytes, keep: string)
    requires Spells(target, host) && Spells(h, header) && Spells(c, connect) && Spells(v, version)
    requires Spells(n, name) && Spells(k, keep)
    ensures Spells(c + target + v + CRLF + n + target + CRLF + h + k + TERMINATOR,
                   connect + host + version + "\r\n" + name + host + "\r\n" + header + keep + "\r\n\r\n")
  {
    SpellsAppend(c, connect, target, host);
    SpellsAppend(c + target, connect + host, v, version);
    var a, s := c + target + v, connect + host + version;
    SpellsAppend(a, s, CRLF, "\r\n");
    SpellsAppend(a + CRLF, s + "\r\n", n, name);
    SpellsAppend(a + CRLF + n, s + "\r\n" + name, target, host);
    var b, t := a + CRLF + n + target, s + "\r\n" + name + host;
    SpellsAppend(b, t, CRLF, "\r\n");
    SpellsAppend(b + CRLF, t + "\r\n", h, header);
    SpellsAppend(b + CRLF + h, t + "\r\n" + header, k, keep);
    SpellsAppend(b + CRLF + h + k, t + "\r\n" + header + keep, TERMINATOR, "\r\n\r\n");
  }

  /** A line is a CONNECT exactly when the word in front of its first space, or the whole line, has the seven letters of
      the method, in either case. */
  lemma IsConnectIff(line: Bytes)
    ensures IsConnect(line) <==>
            var word := UpToFirst(line, [SPACE]);
            && |word| == 7
            && word[0] in {67, 99} && word[1] in {79, 111} && word[2] in {78, 110} && word[3] in {78, 110}
            && word[4] in {69, 101} && word[5] in {67, 99} && word[6] in {84, 116}
  {
    ConnectByFirstWord(line);
    var word := UpToFirst(line, [SPACE]);
    if |word| == 7 {
      forall i | 0 <= i < 7
        ensures Upper(word)[i] == UpperByte(word[i])
      {
      }
      assert Upper(word) == [UpperByte(word[0]), UpperByte(word[1]), UpperByte(word[2]), UpperByte(word[3]),
                             UpperByte(word[4]), UpperByte(word[5]), UpperByte(word[6])];
    } else {
      assert |Upper(word)| != |CONNECT|;
    }
  }

  // ---------------------------------------------------------------------------
  // The handler.
  // ---------------------------------------------------------------------------

  /** The head loop; `recv` yields the chunks one by one, and nothing when they are used up. */
  method ReadHead(chunks: seq<Bytes>) returns (head: Bytes, taken: nat, closed: bool)
    ensures closed <==> HeadChunks(chunks, 0) > |chunks|
    ensures !closed ==> taken == HeadChunks(chunks, 0) && taken <= |chunks| && head == Concat(chunks[..taken])
  {
    head, taken, closed := [], 0, false;
    while !Has(head, TERMINATOR)
      invariant taken <= |chunks| && head == Concat(chunks[..taken]) && !closed
      invariant |head| <= HEAD_LIMIT && HeadChunks(chunks, taken) == HeadChunks(chunks, 0)
      decreases |chunks| - taken
    {
      if taken == |chunks| {
        closed := true;
        return;
      }
      ConcatAppend(chunks[..taken], [chunks[taken]]);
      assert chunks[..taken + 1] == chunks[..taken] + [chunks[taken]] && [chunks[taken]][1..] == [];
      head := head + chunks[taken];
      taken := taken + 1;
      if |head| > HEAD_LIMIT { break; }
    }
  }

  /** One direction of the relay, until the sender closes.  Either direction shuts both sockets when it ends, so this
      one may be cut short: after `most` chunks, if the other ends by then. */
  method Pipe(chunks: seq<Bytes>, most: nat) returns (sent: Bytes)
    ensures most >= |chunks| ==> sent == Concat(chunks)
    ensures most < |chunks| ==> sent == Concat(chunks[..most])
    ensures sent <= Concat(chunks)
  {
    var n := if most < |chunks| then most else |chunks|;
    sent := [];
    for i := 0 to n
      invariant sent == Concat(chunks[..i])
    {
      ConcatAppend(chunks[..i], [chunks[i]]);
      assert chunks[..i + 1] == chunks[..i] + [chunks[i]] && [chunks[i]][1..] == [];
      sent := sent + chunks[i];
    }
    assert chunks[..|chunks|] == chunks;
    HeadIsPrefix(chunks, n);
  }

  /** The reply to CONNECT is read up to its terminator and passed on, the rest is relayed: the client sees
      the upstream proxy's bytes as they are, all of them unless its own direction ends first. */
  method Reply(replies: seq<Bytes>, most: nat) returns (received: Bytes)
    ensures received <= Concat(replies)
    ensures most >= |replies| ==> received == Concat(replies)
  {
    received := [];
    var i := 0;
    while !Has(received, TERMINATOR) && i < |replies|
      invariant i <= |replies| && received == Concat(replies[..i])
    {
      ConcatAppend(replies[..i], [replies[i]]);
      assert replies[..i + 1] == replies[..i] + [replies[i]] && [replies[i]][1..] == [];
      received := received + replies[i];
      i := i + 1;
    }
    HeadIsPrefix(replies, i);
    var tail := Pipe(replies[i..], most);
    received := received + tail;
  }

  /** One connection: `chunks` from the client, `replies` from the upstream proxy.  Behind the head the two
      directions relay at most `up` and `down` chunks, the numbers they get to before the other one closes: each
      side receives a prefix of what the specification says, and the whole of it if it is not cut short. */
  method Handle(chunks: seq<Bytes>, replies: seq<Bytes>, auth: Bytes, up: nat, down: nat)
    returns (fate: Fate, received: Bytes)
    ensures fate.Sent? <==> Forward(chunks, auth).Sent?
    ensures fate.Sent? ==> fate.upstream <= Forward(chunks, auth).upstream && received <= Concat(replies)
    ensures !fate.Sent? ==> fate == Forward(chunks, auth) && received == []
    ensures up >= |chunks| ==> fate == Forward(chunks, auth)
    ensures down >= |replies| && fate.Sent? ==> received == Concat(replies)
    ensures fate.Sent? ==>
              && HeadChunks(chunks, 0) <= |chunks| && Rewrite(Concat(chunks[..HeadChunks(chunks, 0)]), auth).Sent?
              && Rewrite(Concat(chunks[..HeadChunks(chunks, 0)]), auth).upstream <= fate.upstream
  {
    var head, taken, closed := ReadHead(chunks);
    if closed { return Dropped, []; }
    var line := RequestLine(head);
    var parts := SplitSpaces(line);
    var upstream: Bytes;
    if Upper(parts[0]) == CONNECT {
      if |parts| < 2 { return Crashed, []; }
      upstream := ConnectRequest(parts[1], auth);
      received := Reply(replies, down);
    } else {
      upstream := Insert(head, AuthHeader(auth));
      received := Pipe(replies, down);
    }
    assert Rewrite(head, auth) == Sent(upstream);
    var rest := Pipe(chunks[taken..], up);
    fate := Sent(upstream + rest);
  }
}
