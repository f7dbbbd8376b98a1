/** http_server.c: a connection accumulates the bytes of a request across TCP segments,
    finds the end of its headers and its Content-Length, and dispatches once the body is
    complete. */
module Http {
  import opened Bytes
  import opened SeqTools

  const REQ_BUF_MAX := 4096

  const CR: byte := 13
  const SPACE: byte := 32
  const COLON: byte := 58
  const BLANK_LINE: seq<byte> := [13, 10, 13, 10]
  // "Content-Length" and "content-length"
  const FIELD: seq<byte> := [67, 111, 110, 116, 101, 110, 116, 45, 76, 101, 110, 103, 116, 104]
  const LOWER_FIELD: seq<byte> := [99, 111, 110, 116, 101, 110, 116, 45, 108, 101, 110, 103, 116, 104]

  // ---- the string functions ----------------------------------------------------------
  //
  // Strings are the bytes received so far; the byte behind them is a NUL.

  predicate EndsHeaders(d: seq<byte>, i: nat) {
    i + 4 <= |d| && d[i..i + 4] == BLANK_LINE
  }

  /** strstr(d + i, "\r\n\r\n"), |d| when there is none. */
  function HeaderEnd(d: seq<byte>, i: nat): (e: nat)
    requires i <= |d|
    ensures i <= e <= |d| && (e < |d| ==> EndsHeaders(d, e))
    ensures forall k :: i <= k < e < |d| ==> d[k] != 0 && !EndsHeaders(d, k)
    ensures e == |d| ==> forall k :: i <= k < |d| && EndsHeaders(d, k) ==> exists z :: i <= z < k && d[z] == 0
    decreases |d| - i
  {
    if EndsHeaders(d, i) then i
    else if i == |d| || d[i] == 0 then |d|
    else HeaderEnd(d, i + 1)
  }

  predicate NamesLength(d: seq<byte>, p: nat) {
    p + 14 <= |d| && (d[p..p + 14] == FIELD || d[p..p + 14] == LOWER_FIELD)
  }

  /** Where the scan for the Content-Length field stops: at its first letter, or at e. */
  function LengthField(d: seq<byte>, p: nat, e: nat): (f: nat)
    requires p <= e
    ensures p <= f <= e && (f < e ==> NamesLength(d, f))
    ensures forall k :: p <= k < f ==> !NamesLength(d, k)
    decreases e - p
  {
    if p == e || NamesLength(d, p) then p else LengthField(d, p + 1, e)
  }

  /** strchr(d + i, ':'), |d| when there is none. */
  function Colon(d: seq<byte>, i: nat): (c: nat)
    requires i <= |d|
    ensures i <= c <= |d| && (c < |d| ==> d[c] == COLON)
    decreases |d| - i
  {
    if i == |d| || d[i] == 0 then |d| else if d[i] == COLON then i else Colon(d, i + 1)
  }

  predicate IsSpace(b: byte) {
    b == SPACE || 9 <= b <= 13
  }

  function SkipSpace(d: seq<byte>, i: nat): (j: nat)
    requires i <= |d|
    ensures i <= j <= |d| && (j < |d| ==> !IsSpace(d[j]))
    ensures forall k :: i <= k < j ==> IsSpace(d[k])
    decreases |d| - i
  {
    if i < |d| && IsSpace(d[i]) then SkipSpace(d, i + 1) else i
  }

  function Digits(d: seq<byte>, i: nat, acc: nat): nat
    requires i <= |d|
    decreases |d| - i
  {
    if i < |d| && 48 <= d[i] <= 57 then Digits(d, i + 1, 10 * acc + (d[i] as int - 48)) else acc
  }

  /** A decimal number with an optional sign. */
  function Number(d: seq<byte>, j: nat): int
    requires j <= |d|
  {
    if j < |d| && d[j] == 45 then -(Digits(d, j + 1, 0) as int)
    else if j < |d| && d[j] == 43 then Digits(d, j + 1, 0)
    else Digits(d, j, 0)
  }

  /** atoi(d + i), for values an int can hold. */
  function Atoi(d: seq<byte>, i: nat): int
    requires i <= |d|
  {
    Number(d, SkipSpace(d, i))
  }

  /** The Content-Length of headers that end at e, 0 without the field. */
  function ContentLength(d: seq<byte>, e: nat): int
    requires e <= |d|
  {
    var f := LengthField(d, 0, e);
    var c := Colon(d, f);
    if f < e && c < e then Atoi(d, c + 1) else 0
  }

  // ---- connection and answers --------------------------------------------------------

  datatype Conn = Conn(data: seq<byte>, haveHeaders: bool, contentLength: int, bodyOffset: nat)

  function Opened(): Conn {
    Conn([], false, 0, 0)
  }

  function ParseHeaders(c: Conn): Conn {
    var e := HeaderEnd(c.data, 0);
    if e == |c.data| then c else Conn(c.data, true, ContentLength(c.data, e), e + 4)
  }

  /** request_complete. The sum is one of size_t, so a negative length wraps. */
  predicate Complete(c: Conn) {
    c.haveHeaders && (c.contentLength == 0 || |c.data| >= (c.bodyOffset + c.contentLength) % 0x1_0000_0000)
  }

  datatype Route = Route(verb: seq<byte>, path: seq<byte>)

  /** What dispatch does: answer 400 or 404, or call a route's handler with the path, the
      text behind the headers and the length of the body. */
  datatype Answer = BadRequest | NotFound | Call(route: nat, path: seq<byte>, text: seq<byte>, len: int)

  /** The longest run of at most n bytes from i without a NUL or a space. */
  function Word(d: seq<byte>, i: nat, n: nat): (w: seq<byte>)
    ensures |w| <= n && (w != [] ==> i + |w| <= |d|)
    decreases n
  {
    if n == 0 || i >= |d| || d[i] == 0 || d[i] == SPACE then [] else [d[i]] + Word(d, i + 1, n - 1)
  }

  function Matches(verb: seq<byte>, path: seq<byte>): Route -> bool {
    (r: Route) => r.verb == verb && r.path == path
  }

  function Dispatch(routes: seq<Route>, c: Conn): Answer
    requires c.bodyOffset <= |c.data|
  {
    var verb := Word(c.data, 0, 7);
    if |verb| >= |c.data| || c.data[|verb|] != SPACE then BadRequest
    else
      var path := Word(c.data, |verb| + 1, 63);
      var i := First(routes, Matches(verb, path));
      if i == |routes| then NotFound
      else Call(i, path, c.data[c.bodyOffset..], c.contentLength % 0x1_0000_0000)
  }

  predicate Sound(c: Conn) {
    c.haveHeaders ==> c.bodyOffset <= |c.data|
  }

  datatype Step = Waiting(conn: Conn) | TooLarge | Answered(answer: Answer)

  /** on_recv for a segment of data. */
  function Receive(routes: seq<Route>, c: Conn, seg: seq<byte>): (s: Step)
    requires Sound(c)
    ensures s.Waiting? ==> Sound(s.conn)
  {
    if |c.data| + |seg| > REQ_BUF_MAX then TooLarge
    else
      var got := c.(data := c.data + seg);
      var parsed := if got.haveHeaders then got else ParseHeaders(got);
      if Complete(parsed) then Answered(Dispatch(routes, parsed)) else Waiting(parsed)
  }

  /** A connection over its whole life: still accumulating, or closed with `unread`
      segments to come. Closing frees the connection, so it answers at most once. */
  datatype Life = Open(conn: Conn) | Refused(unread: nat) | Served(answer: Answer, unread: nat)

  function Deliver(routes: seq<Route>, c: Conn, segs: seq<seq<byte>>): Life
    requires Sound(c)
    decreases |segs|
  {
    if segs == [] then Open(c)
    else match Receive(routes, c, segs[0])
      case Waiting(next) => Deliver(routes, next, segs[1..])
      case TooLarge => Refused(|segs| - 1)
      case Answered(a) => Served(a, |segs| - 1)
  }

  // ---- segmentation ------------------------------------------------------------------

  function Join(segs: seq<seq<byte>>): seq<byte> {
    if segs == [] then [] else segs[0] + Join(segs[1..])
  }

  /** segs is a way of cutting r: TCP delivers no empty segment. */
  predicate Cuts(segs: seq<seq<byte>>, r: seq<byte>) {
    Join(segs) == r && forall i :: 0 <= i < |segs| ==> segs[i] != []
  }

  /** A request that fits, with its headers free of NULs and complete, and a
      Content-Length that is the length of its body. */
  predicate IsRequest(r: seq<byte>) {
    |r| < REQ_BUF_MAX && HeaderEnd(r, 0) < |r|
    && ContentLength(r, HeaderEnd(r, 0)) == |r| - HeaderEnd(r, 0) - 4
  }

  function Body(r: seq<byte>): seq<byte>
    requires IsRequest(r)
  {
    r[HeaderEnd(r, 0) + 4..]
  }

  /** The Content-Length field has nothing but white space between its colon and the blank
      line that ends the headers, so that atoi reads on into the body. */
  predicate BlankLength(r: seq<byte>)
    requires IsRequest(r)
  {
    var e := HeaderEnd(r, 0);
    var f := LengthField(r, 0, e);
    var c := Colon(r, f);
    f < e && c < e && forall k :: c < k < e ==> IsSpace(r[k])
  }

  /** The answer a request asks for, whatever the segments it comes in. */
  function Reply(routes: seq<Route>, r: seq<byte>): Answer
    requires IsRequest(r)
  {
    Dispatch(routes, Conn(r, true, |Body(r)|, |r| - |Body(r)|))
  }

  lemma {:induction false} HeaderEndOfPrefix(r: seq<byte>, n: nat, i: nat)
    requires i <= n <= |r| && HeaderEnd(r, i) < |r|
    ensures HeaderEnd(r[..n], i) == if n < HeaderEnd(r, i) + 4 then n else HeaderEnd(r, i)
    decreases |r| - i
  {
    var p := r[..n];
    if i + 4 <= n {
      assert p[i..i + 4] == r[i..i + 4];
    }
    if i < n && !EndsHeaders(r, i) {
      HeaderEndOfPrefix(r, n, i + 1);
    }
  }

  lemma LineEnd(d: seq<byte>, e: nat)
    requires EndsHeaders(d, e)
    ensures d[e] == CR
  {
    assert d[e..e + 4][0] == CR;
  }

  /** So that the name of the field cannot straddle the end of the headers. */
  lemma NameHasNoReturn(d: seq<byte>, p: nat)
    requires NamesLength(d, p)
    ensures forall k :: p <= k < p + 14 ==> d[k] != CR
  {
    assert forall k :: p <= k < p + 14 ==> d[k] == d[p..p + 14][k - p];
  }

  lemma {:induction false} LengthFieldOfPrefix(r: seq<byte>, n: nat, p: nat, e: nat)
    requires p <= e && EndsHeaders(r, e) && e + 4 <= n <= |r|
    ensures LengthField(r[..n], p, e) == LengthField(r, p, e)
    decreases e - p
  {
    if p < e {
      LengthFieldOfPrefix(r, n, p + 1, e);
      if p + 14 <= n {
        assert r[..n][p..p + 14] == r[p..p + 14];
      }
      if NamesLength(r, p) {
        NameHasNoReturn(r, p);
        LineEnd(r, e);
      }
    }
  }

  lemma {:induction false} ColonOfPrefix(r: seq<byte>, n: nat, i: nat, e: nat)
    requires i <= e <= n <= |r|
    ensures Colon(r, i) < e || Colon(r[..n], i) < e ==> Colon(r[..n], i) == Colon(r, i)
    decreases e - i
  {
    if i < e {
      ColonOfPrefix(r, n, i + 1, e);
    }
  }

  lemma {:induction false} SkipSpaceOfPrefix(r: seq<byte>, n: nat, i: nat)
    requires i <= n <= |r| && SkipSpace(r, i) < n
    ensures SkipSpace(r[..n], i) == SkipSpace(r, i)
    decreases |r| - i
  {
    if IsSpace(r[i]) {
      SkipSpaceOfPrefix(r, n, i + 1);
    }
  }

  /** Digits before a byte that is not one do not depend on what follows it. */
  lemma {:induction false} DigitsOfPrefix(r: seq<byte>, n: nat, i: nat, acc: nat, e: nat)
    requires i <= e < n <= |r| && r[e] == CR
    ensures Digits(r[..n], i, acc) == Digits(r, i, acc)
    decreases e - i
  {
    if i < e && 48 <= r[i] <= 57 {
      DigitsOfPrefix(r, n, i + 1, 10 * acc + (r[i] as int - 48), e);
    }
  }

  /** With something to read before the headers end, the length is theirs alone. */
  lemma ContentLengthOfPrefix(r: seq<byte>, n: nat)
    requires IsRequest(r) && HeaderEnd(r, 0) + 4 <= n <= |r| && !BlankLength(r)
    ensures ContentLength(r[..n], HeaderEnd(r, 0)) == ContentLength(r, HeaderEnd(r, 0))
  {
    hide HeaderEnd, LengthField, Colon, SkipSpace, Number, EndsHeaders, NamesLength;
    var e := HeaderEnd(r, 0);
    assert r[e] == CR by { LineEnd(r, e); }
    LengthFieldOfPrefix(r, n, 0, e);
    var f := LengthField(r, 0, e);
    ColonOfPrefix(r, n, f, e);
    var c := Colon(r, f);
    if f < e && c < e {
      SkipSpaceOfPrefix(r, n, c + 1);
      NumberOfPrefix(r, n, SkipSpace(r, c + 1), e);
    }
  }

  lemma NumberOfPrefix(r: seq<byte>, n: nat, j: nat, e: nat)
    requires j < e < n <= |r| && r[e] == CR
    ensures Number(r[..n], j) == Number(r, j)
  {
    hide Digits;
    DigitsOfPrefix(r, n, j, 0, e);
    DigitsOfPrefix(r, n, j + 1, 0, e);
  }

  /** The connection when the first n bytes of r have come in. */
  function Seen(r: seq<byte>, n: nat): Conn
    requires IsRequest(r) && n <= |r|
  {
    if n < HeaderEnd(r, 0) + 4 then Conn(r[..n], false, 0, 0)
    else Conn(r[..n], true, |Body(r)|, HeaderEnd(r, 0) + 4)
  }

  lemma ReceivePart(routes: seq<Route>, r: seq<byte>, n: nat, m: nat)
    requires IsRequest(r) && n < m <= |r| && (Body(r) == [] || !BlankLength(r))
    ensures Receive(routes, Seen(r, n), r[n..m])
         == if m < |r| then Waiting(Seen(r, m)) else Answered(Reply(routes, r))
  {
    hide Dispatch, ContentLength, BlankLength, HeaderEnd;
    var c := Seen(r, n);
    assert c.data + r[n..m] == r[..m];
    HeaderEndOfPrefix(r, m, 0);
    if m >= HeaderEnd(r, 0) + 4 {
      if !BlankLength(r) {
        ContentLengthOfPrefix(r, m);
      } else {
        assert r[..m] == r;
      }
    }
    assert r[..|r|] == r;
  }

  lemma JoinOfNone(segs: seq<seq<byte>>)
    requires Cuts(segs, [])
    ensures segs == []
  {
  }

  lemma {:induction false} DeliverRest(routes: seq<Route>, r: seq<byte>, n: nat, segs: seq<seq<byte>>)
    requires IsRequest(r) && n < |r| && (Body(r) == [] || !BlankLength(r))
    requires Cuts(segs, r[n..])
    ensures Deliver(routes, Seen(r, n), segs) == Served(Reply(routes, r), 0)
    decreases |segs|
  {
    hide Receive, Seen, Reply, IsRequest, BlankLength, Body;
    var m := n + |segs[0]|;
    assert r[n..][..|segs[0]|] == segs[0] == r[n..m];
    ReceivePart(routes, r, n, m);
    assert Join(segs[1..]) == r[n..][|segs[0]|..] == r[m..];
    if m < |r| {
      DeliverRest(routes, r, m, segs[1..]);
    } else {
      JoinOfNone(segs[1..]);
    }
  }

  /** However a request is cut, it is dispatched exactly once, on its last segment, with
      the same method, path and body. */
  lemma SegmentationIndependence(routes: seq<Route>, r: seq<byte>, segs: seq<seq<byte>>)
    requires IsRequest(r) && (Body(r) == [] || !BlankLength(r)) && Cuts(segs, r)
    ensures Deliver(routes, Opened(), segs) == Deliver(routes, Opened(), [r]) == Served(Reply(routes, r), 0)
  {
    hide Receive, Reply, BlankLength, Body, Deliver;
    assert r[0..] == r && r[..0] == [];
    DeliverRest(routes, r, 0, segs);
    assert [r][1..] == [] && Join([r]) == r + [] == r;
    DeliverRest(routes, r, 0, [r]);
  }

  /** A request whose Content-Length is blank is dispatched without its body when a segment
      ends with its headers. */
  lemma BlankLengthLosesBody(routes: seq<Route>, r: seq<byte>)
    requires IsRequest(r) && Body(r) != [] && BlankLength(r)
    ensures var n := HeaderEnd(r, 0) + 4;
            Cuts([r[..n], r[n..]], r)
            && Deliver(routes, Opened(), [r[..n], r[n..]])
               == Served(Dispatch(routes, Conn(r[..n], true, 0, n)), 1)
  {
    hide Receive, Dispatch, HeaderEnd, ContentLength, BlankLength;
    var n := HeaderEnd(r, 0) + 4;
    var segs := [r[..n], r[n..]];
    assert segs[1..] == [r[n..]] && [r[n..]][1..] == [];
    assert r[n..] + [] == r[n..] && r[..n] + r[n..] == r;
    assert segs[0] != [] && segs[1] != [] && Join(segs[1..]) == r[n..];
    HeadersAlone(routes, r);
  }

  lemma HeadersAlone(routes: seq<Route>, r: seq<byte>)
    requires IsRequest(r) && BlankLength(r)
    ensures var n := HeaderEnd(r, 0) + 4;
            Receive(routes, Opened(), r[..n]) == Answered(Dispatch(routes, Conn(r[..n], true, 0, n)))
  {
    hide Dispatch, HeaderEnd, ContentLength, BlankLength;
    var n := HeaderEnd(r, 0) + 4;
    assert [] + r[..n] == r[..n];
    HeaderEndOfPrefix(r, n, 0);
    NoLengthYet(r);
  }

  lemma NoLengthYet(r: seq<byte>)
    requires IsRequest(r) && BlankLength(r)
    ensures ContentLength(r[..HeaderEnd(r, 0) + 4], HeaderEnd(r, 0)) == 0
  {
    hide HeaderEnd, LengthField, Colon, SkipSpace, NamesLength;
    var e := HeaderEnd(r, 0);
    var n := e + 4;
    LengthFieldOfPrefix(r, n, 0, e);
    var f := LengthField(r, 0, e);
    ColonOfPrefix(r, n, f, e);
    var c := Colon(r, f);
    var d := r[..n];
    forall k | c < k < n
      ensures IsSpace(d[k])
    {
      assert d[k] == r[k] && (k >= e ==> r[k] == r[e..e + 4][k - e]);
    }
    AllSpace(d, c + 1);
  }

  lemma {:induction false} AllSpace(d: seq<byte>, i: nat)
    requires i <= |d| && forall k :: i <= k < |d| ==> IsSpace(d[k])
    ensures SkipSpace(d, i) == |d|
    decreases |d| - i
  {
    if i < |d| {
      AllSpace(d, i + 1);
    }
  }

  ghost predicate CutIndependent(routes: seq<Route>, r: seq<byte>)
    requires IsRequest(r)
  {
    forall segs :: Cuts(segs, r) ==> Deliver(routes, Opened(), segs) == Served(Reply(routes, r), 0)
  }

  /** Segmentation is invisible exactly when the request has no body or its Content-Length
      is not blank. */
  lemma CutIndependentIff(routes: seq<Route>, r: seq<byte>)
    requires IsRequest(r)
    ensures CutIndependent(routes, r) <==> Body(r) == [] || !BlankLength(r)
  {
    hide Deliver, Reply, BlankLength, ContentLength, HeaderEnd, Cuts;
    if Body(r) == [] || !BlankLength(r) {
      forall segs | Cuts(segs, r)
        ensures Deliver(routes, Opened(), segs) == Served(Reply(routes, r), 0)
      {
        SegmentationIndependence(routes, r, segs);
      }
    } else {
      BlankLengthLosesBody(routes, r);
      var n := HeaderEnd(r, 0) + 4;
      var segs := [r[..n], r[n..]];
      assert Cuts(segs, r) && Deliver(routes, Opened(), segs) != Served(Reply(routes, r), 0);
    }
  }

  // "X / Content-Length:", the blank line, and the body "1"
  const BLANK_EXAMPLE: seq<byte> :=
    [88, 32, 47, 32, 67, 111, 110, 116, 101, 110, 116, 45, 76, 101, 110, 103, 116, 104, 58, 13, 10, 13, 10, 49]

  lemma {:induction false} HeadersEndAt(d: seq<byte>, i: nat, e: nat)
    requires i <= e && EndsHeaders(d, e) && forall k :: i <= k < e ==> d[k] != 0 && d[k] != CR
    ensures HeaderEnd(d, i) == e
    decreases e - i
  {
    if i < e {
      assert i + 4 <= |d| ==> d[i..i + 4][0] == d[i];
      HeadersEndAt(d, i + 1, e);
    }
  }

  predicate IsExample(r: seq<byte>) {
    |r| == 24 && r[0] == 88 && r[1] == SPACE && r[2] == 47 && r[3] == SPACE && NamesLength(r, 4)
    && r[18] == COLON && EndsHeaders(r, 19) && r[23] == 49
    && forall k :: 0 <= k < 18 ==> r[k] != 0 && r[k] != CR && r[k] != COLON
  }

  lemma ExampleIsOne()
    ensures IsExample(BLANK_EXAMPLE)
  {
    var r := BLANK_EXAMPLE;
    var name, end := r[4..18], r[19..23];
    assert name == FIELD;
    assert end == BLANK_LINE;
  }

  lemma NameStarts(d: seq<byte>, p: nat)
    ensures NamesLength(d, p) ==> d[p] == 67 || d[p] == 99
  {
    assert p + 14 <= |d| ==> d[p..p + 14][0] == d[p];
  }

  lemma ExampleField(r: seq<byte>)
    requires IsExample(r)
    ensures HeaderEnd(r, 0) == 19 && LengthField(r, 0, 19) == 4
  {
    hide EndsHeaders, NamesLength;
    HeadersEndAt(r, 0, 19);
    NameStarts(r, 0);
    NameStarts(r, 1);
    NameStarts(r, 2);
    NameStarts(r, 3);
    assert LengthField(r, 4, 19) == 4;
    assert LengthField(r, 2, 19) == 4;
  }

  lemma {:induction false} ColonAt(d: seq<byte>, i: nat, c: nat)
    requires i <= c < |d| && d[c] == COLON && forall k :: i <= k < c ==> d[k] != 0 && d[k] != COLON
    ensures Colon(d, i) == c
    decreases c - i
  {
    if i < c {
      ColonAt(d, i + 1, c);
    }
  }

  lemma {:induction false} SpacesUntil(d: seq<byte>, i: nat, j: nat)
    requires i <= j < |d| && !IsSpace(d[j]) && forall k :: i <= k < j ==> IsSpace(d[k])
    ensures SkipSpace(d, i) == j
    decreases j - i
  {
    if i < j {
      SpacesUntil(d, i + 1, j);
    }
  }

  lemma ExampleIsRequest(r: seq<byte>)
    requires IsExample(r)
    ensures IsRequest(r) && HeaderEnd(r, 0) == 19 && Body(r) == [49] && BlankLength(r)
  {
    hide HeaderEnd, LengthField, Colon, SkipSpace, NamesLength;
    ExampleField(r);
    ColonAt(r, 4, 18);
    assert forall k :: 19 <= k < 23 ==> r[k] == r[19..23][k - 19];
    SpacesUntil(r, 19, 23);
    assert Digits(r, 24, 1) == 1;
    assert Number(r, 23) == 1;
  }

  lemma ExampleWords(d: seq<byte>)
    requires |d| >= 19 && d[0] == 88 && d[1] == SPACE && d[2] == 47 && d[3] == SPACE
    ensures Word(d, 0, 7) == [88] && Word(d, 2, 63) == [47]
  {
  }

  lemma ExampleAnswer(routes: seq<Route>, c: Conn)
    requires c.bodyOffset <= |c.data| && routes == [Route([88], [47])]
    requires |c.data| >= 19 && c.data[0] == 88 && c.data[1] == SPACE && c.data[2] == 47 && c.data[3] == SPACE
    ensures Dispatch(routes, c) == Call(0, [47], c.data[c.bodyOffset..], c.contentLength % 0x1_0000_0000)
  {
    hide Word;
    ExampleWords(c.data);
    FirstIs(routes, Matches([88], [47]), 0);
  }

  lemma ExampleRun(r: seq<byte>, routes: seq<Route>)
    requires IsExample(r) && routes == [Route([88], [47])]
    ensures IsRequest(r) && Reply(routes, r) == Call(0, [47], [49], 1)
    ensures Deliver(routes, Opened(), [r[..23], r[23..]]) == Served(Call(0, [47], [], 0), 1)
  {
    hide HeaderEnd, ContentLength, Deliver, BlankLength, Dispatch;
    ExampleIsRequest(r);
    ExampleAnswer(routes, Conn(r, true, 1, 23));
    ExampleAnswer(routes, Conn(r[..23], true, 0, 23));
    BlankLengthLosesBody(routes, r);
  }

  /** A request whose body is lost when it is cut behind its headers. */
  lemma BlankLengthExample(r: seq<byte>, routes: seq<Route>)
    requires r == BLANK_EXAMPLE && routes == [Route([88], [47])]
    ensures IsRequest(r) && Reply(routes, r) == Call(0, [47], [49], 1)
    ensures Deliver(routes, Opened(), [r[..23], r[23..]]) == Served(Call(0, [47], [], 0), 1)
  {
    hide *;
    ExampleIsOne();
    ExampleRun(r, routes);
  }

  // ---- numbers and words ---------------------------------------------------------------

  /** A number as it is written in decimal. */
  function Decimal(n: nat): (s: seq<byte>)
    ensures s != []
  {
    (if n < 10 then [] else Decimal(n / 10)) + [48 + n % 10]
  }

  predicate NoDigit(d: seq<byte>, i: nat) {
    i < |d| ==> d[i] < 48 || d[i] > 57
  }

  lemma {:induction false} DigitsOfDecimal(d: seq<byte>, i: nat, n: nat, acc: nat)
    requires i + |Decimal(n)| <= |d| && d[i..i + |Decimal(n)|] == Decimal(n)
    ensures Digits(d, i, acc) == Digits(d, i + |Decimal(n)|, acc * Scale(n) + n)
    decreases n
  {
    var j := i + |Decimal(n)| - 1;
    LastDigit(d, i, n);
    if n >= 10 {
      hide Decimal, Digits;
      DigitsOfDecimal(d, i, n / 10, acc);
      Shift(acc, Scale(n / 10), n);
    } else {
      Shift(acc, 1, n);
    }
    DigitStep(d, j, if n >= 10 then acc * Scale(n / 10) + n / 10 else acc);
  }

  lemma DigitStep(d: seq<byte>, j: nat, acc: nat)
    requires j < |d| && 48 <= d[j] <= 57
    ensures Digits(d, j, acc) == Digits(d, j + 1, 10 * acc + (d[j] as int - 48))
  {
  }

  lemma Shift(acc: nat, scale: nat, n: nat)
    ensures 10 * (acc * scale + n / 10) + n % 10 == acc * (10 * scale) + n
  {
    assert acc * (10 * scale) == 10 * (acc * scale);
  }

  lemma LastDigit(d: seq<byte>, i: nat, n: nat)
    requires i + |Decimal(n)| <= |d| && d[i..i + |Decimal(n)|] == Decimal(n)
    ensures var j := i + |Decimal(n)| - 1;
            d[j] == 48 + n % 10 && (n >= 10 ==> |Decimal(n / 10)| == j - i && d[i..j] == Decimal(n / 10))
            && (n < 10 ==> j == i)
  {
    var s, m := Decimal(n), |Decimal(n)| - 1;
    assert s[m] == 48 + n % 10 && (n >= 10 ==> s[..m] == Decimal(n / 10)) && (n < 10 ==> m == 0);
    hide Decimal;
    assert d[i + m] == d[i..i + m + 1][m] == s[m];
    assert d[i..i + m] == d[i..i + m + 1][..m] == s[..m];
  }

  /** Ten to the number of digits. */
  function Scale(n: nat): nat {
    if n < 10 then 10 else 10 * Scale(n / 10)
  }

  /** Tab, line feed, vertical tab, form feed, carriage return and space. */
  lemma WhiteSpace(b: byte)
    ensures IsSpace(b) <==> b == 9 || b == 10 || b == 11 || b == 12 || b == 13 || b == 32
  {
  }

  /** White space, an optional sign and a decimal number are read as that number, whatever
      follows that is not a digit. */
  lemma AtoiReadsDecimal(d: seq<byte>, i: nat, j: nat, sign: Option<byte>, n: nat)
    requires i <= j && forall k :: i <= k < j ==> k < |d| && IsSpace(d[k])
    requires sign.Some? ==> j < |d| && d[j] == sign.value && (sign.value == 45 || sign.value == 43)
    requires var b := if sign.Some? then j + 1 else j;
             var end := b + |Decimal(n)|;
             end <= |d| && d[b..end] == Decimal(n) && NoDigit(d, end)
    ensures Atoi(d, i) == if sign == Some(45) then -(n as int) else n
  {
    var b := if sign.Some? then j + 1 else j;
    assert d[b] == d[b..b + |Decimal(n)|][0];
    FirstDigit(n);
    SpacesUntil(d, i, j);
    DigitsOfDecimal(d, b, n, 0);
    hide Decimal, SkipSpace;
  }

  lemma {:induction false} FirstDigit(n: nat)
    ensures 48 <= Decimal(n)[0] <= 57
    decreases n
  {
    if n >= 10 {
      FirstDigit(n / 10);
    }
  }

  /** Without the field, or without a colon behind it in the headers, the length is 0; else it is
      what follows the colon. */
  lemma LengthIsRead(d: seq<byte>, e: nat)
    requires EndsHeaders(d, e)
    ensures var f := LengthField(d, 0, e);
            ContentLength(d, e) == if f == e || Colon(d, f) > e then 0 else Atoi(d, Colon(d, f) + 1)
  {
    LineEnd(d, e);
    hide LengthField, Colon, Atoi;
  }

  /** A request of at most 4096 bytes is complete when its headers are in and its length is 0 or
      what it says of the end has come; one whose negative length reaches back before the start
      never is. */
  lemma CompleteIff(c: Conn)
    requires |c.data| <= 4096 && c.bodyOffset <= |c.data| && -0x8000_0000 <= c.contentLength < 0x8000_0000
    ensures Complete(c) <==> && c.haveHeaders
                             && (c.contentLength == 0 || 0 <= c.bodyOffset + c.contentLength <= |c.data|)
  {
  }

  predicate IsWord(w: seq<byte>) {
    forall i :: 0 <= i < |w| ==> w[i] != 0 && w[i] != SPACE
  }

  lemma {:induction false} WordReads(d: seq<byte>, i: nat, w: seq<byte>, n: nat)
    requires IsWord(w) && |w| <= n && i + |w| <= |d| && d[i..i + |w|] == w
    requires |w| == n || i + |w| == |d| || d[i + |w|] == 0 || d[i + |w|] == SPACE
    ensures Word(d, i, n) == w
    decreases |w|
  {
    if w != [] {
      assert d[i] == d[i..i + |w|][0] == w[0];
      assert d[i + 1..i + |w|] == d[i..i + |w|][1..] == w[1..];
      WordReads(d, i + 1, w[1..], n - 1);
    }
  }

  /** The words of a request line stand where they should: a method, a space and a path. */
  predicate Line(d: seq<byte>, verb: seq<byte>, path: seq<byte>) {
    var m := |verb| + 1;
    m + |path| <= |d| && d[0..|verb|] == verb && d[|verb|] == SPACE && d[m..m + |path|] == path
    && IsWord(verb) && IsWord(path)
  }

  lemma TwoWords(d: seq<byte>, verb: seq<byte>, path: seq<byte>)
    requires Line(d, verb, path) && |verb| <= 7 && |path| <= 63
    requires |path| == 63 || (|verb| + 1 + |path| < |d| && d[|verb| + 1 + |path|] == SPACE)
    ensures Word(d, 0, 7) == verb && Word(d, |verb| + 1, 63) == path
  {
    hide Word, IsWord;
    WordReads(d, 0, verb, 7);
    WordReads(d, |verb| + 1, path, 63);
  }

  lemma DispatchOfWords(routes: seq<Route>, c: Conn, verb: seq<byte>, path: seq<byte>)
    requires c.bodyOffset <= |c.data| && |verb| < |c.data| && c.data[|verb|] == SPACE
    requires Word(c.data, 0, 7) == verb && Word(c.data, |verb| + 1, 63) == path
    ensures var i := First(routes, Matches(verb, path));
            Dispatch(routes, c)
              == if i == |routes| then NotFound
                 else Call(i, path, c.data[c.bodyOffset..], c.contentLength % 0x1_0000_0000)
  {
    hide Word, First, Matches;
  }

  lemma BodyEndsRequest(r: seq<byte>)
    requires IsRequest(r)
    ensures |Body(r)| <= |r| && r[|r| - |Body(r)|..] == Body(r) && |Body(r)| % 0x1_0000_0000 == |Body(r)|
  {
    hide HeaderEnd, ContentLength;
  }

  /** A request line with a method of up to seven characters and a path of up to 63 calls the
      first route of exactly that method and path, with the path, the body and its length; with
      no such route the answer is 404. */
  lemma ReplyMeans(routes: seq<Route>, r: seq<byte>, verb: seq<byte>, path: seq<byte>)
    requires IsRequest(r) && Line(r, verb, path) && |verb| <= 7 && |path| <= 63
    requires |verb| + 1 + |path| < |r| && r[|verb| + 1 + |path|] == SPACE
    ensures var i := First(routes, Matches(verb, path));
            Reply(routes, r) == if i == |routes| then NotFound else Call(i, path, Body(r), |Body(r)|)
  {
    TwoWords(r, verb, path);
    BodyEndsRequest(r);
    hide Word, IsRequest, Body, Dispatch, IsWord, First, Matches;
    DispatchOfWords(routes, Conn(r, true, |Body(r)|, |r| - |Body(r)|), verb, path);
  }

  /** A method that is longer is a bad request. */
  lemma LongMethod(routes: seq<Route>, c: Conn, verb: seq<byte>)
    requires c.bodyOffset <= |c.data| && |verb| == 8 && IsWord(verb) && verb <= c.data
    ensures Dispatch(routes, c) == BadRequest
  {
    var d := c.data;
    assert d[0..7] == verb[..7] && d[7] == verb[7];
    assert IsWord(verb[..7]);
    WordReads(d, 0, verb[..7], 7);
    hide Word, First;
  }

  /** A longer path is matched by its first 63 characters. */
  lemma LongPath(routes: seq<Route>, c: Conn, verb: seq<byte>, path: seq<byte>)
    requires c.bodyOffset <= |c.data| && Line(c.data, verb, path) && |verb| <= 7 && |path| > 63
    ensures var i := First(routes, Matches(verb, path[..63]));
            Dispatch(routes, c)
              == if i == |routes| then NotFound
                 else Call(i, path[..63], c.data[c.bodyOffset..], c.contentLength % 0x1_0000_0000)
  {
    CutPath(c.data, verb, path);
    TwoWords(c.data, verb, path[..63]);
    hide Word, Dispatch, IsWord, First, Matches;
    DispatchOfWords(routes, c, verb, path[..63]);
  }

  lemma CutPath(d: seq<byte>, verb: seq<byte>, path: seq<byte>)
    requires Line(d, verb, path) && |path| > 63
    ensures Line(d, verb, path[..63])
  {
    var m := |verb| + 1;
    assert d[m..m + 63] == d[m..m + |path|][..63];
  }

  /** 413 is for exactly the segments that do not fit 4096 bytes. */
  lemma TooLargeIff(routes: seq<Route>, c: Conn, seg: seq<byte>)
    requires Sound(c)
    ensures Receive(routes, c, seg) == TooLarge <==> |c.data| + |seg| > 4096
  {
    hide Dispatch, ParseHeaders, Complete;
  }

  // ---- the connection in place -------------------------------------------------------

  class Connection {
    const buf: array<byte>
    var used: nat
    var haveHeaders: bool
    var contentLength: int
    var bodyOffset: nat

    /** calloc leaves the unused part of the buffer zero, and nothing writes there. */
    ghost predicate Valid()
      reads this, buf
    {
      buf.Length == REQ_BUF_MAX && used <= REQ_BUF_MAX && (haveHeaders ==> bodyOffset <= used)
      && forall k :: used <= k < REQ_BUF_MAX ==> buf[k] == 0
    }

    ghost function State(): (c: Conn)
      reads this, buf
      requires Valid()
      ensures Sound(c)
    {
      Conn(buf[..used], haveHeaders, contentLength, bodyOffset)
    }

    /** on_accept. */
    constructor ()
      ensures Valid() && State() == Opened() && fresh(buf)
    {
      buf := new byte[REQ_BUF_MAX](_ => 0);
      used, haveHeaders, contentLength, bodyOffset := 0, false, 0, 0;
    }

    /** parse_headers. The terminator it writes has to fit. */
    method ParseHeadersInPlace()
      requires Valid() && used < REQ_BUF_MAX
      modifies this`haveHeaders, this`contentLength, this`bodyOffset, buf
      ensures Valid() && State() == ParseHeaders(old(State()))
    {
      hide ContentLength, HeaderEnd;
      buf[used] := 0;
      var d := buf[..used];
      assert d == old(buf[..used]);
      var eol := HeaderEnd(d, 0);
      if eol == |d| { return; }
      haveHeaders, bodyOffset := true, eol + 4;
      contentLength := ScanLength(d, eol);
    }

    /** The loop of parse_headers. */
    static method ScanLength(d: seq<byte>, eol: nat) returns (length: int)
      requires eol < |d|
      ensures length == ContentLength(d, eol)
    {
      hide Atoi, Colon;
      length := 0;
      var p := 0;
      while p < eol
        invariant p <= eol && length == 0
        invariant LengthField(d, 0, eol) == LengthField(d, p, eol)
      {
        if p + 14 <= |d| && (((d[p] == 67 || d[p] == 99) && d[p..p + 14] == FIELD)
                             || d[p..p + 14] == LOWER_FIELD) {
          var colon := Colon(d, p);
          if colon < eol {
            length := Atoi(d, colon + 1);
          }
          break;
        }
        assert p + 14 <= |d| && d[p..p + 14] == FIELD ==> d[p..p + 14][0] == 67;
        p := p + 1;
      }
    }

    /** request_complete. */
    method RequestComplete() returns (ok: bool)
      requires Valid()
      ensures ok == Complete(State())
    {
      if !haveHeaders { return false; }
      if contentLength == 0 { return true; }
      return used >= (bodyOffset + contentLength) % 0x1_0000_0000;
    }

    /** A word of the request line, copied out byte by byte. */
    method ReadWord(off: nat, max: nat) returns (w: seq<byte>)
      requires Valid() && off + max < REQ_BUF_MAX
      ensures w == Word(State().data, off, max)
    {
      w := [];
      while buf[off + |w|] != 0 && buf[off + |w|] != SPACE && |w| < max
        invariant |w| <= max
        invariant w + Word(State().data, off + |w|, max - |w|) == Word(State().data, off, max)
        decreases max - |w|
      {
        w := w + [buf[off + |w|]];
      }
    }

    /** dispatch, up to the call of the handler. */
    method DispatchRequest(routes: seq<Route>) returns (a: Answer)
      requires Valid() && haveHeaders
      ensures a == Dispatch(routes, State())
    {
      hide Word, First, Matches;
      ghost var d := State().data;
      var verb := ReadWord(0, 7);
      assert if |verb| < |d| then buf[|verb|] == d[|verb|] else buf[|verb|] == 0;
      if buf[|verb|] != SPACE { return BadRequest; }
      var path := ReadWord(|verb| + 1, 63);
      for i := 0 to |routes|
        invariant forall j :: 0 <= j < i ==> !Matches(verb, path)(routes[j])
      {
        MatchesMeans(routes[i], verb, path);
        if routes[i].verb == verb && routes[i].path == path {
          FirstIs(routes, Matches(verb, path), i);
          return Call(i, path, buf[bodyOffset..used], contentLength % 0x1_0000_0000);
        }
      }
      FirstIs(routes, Matches(verb, path), |routes|);
      return NotFound;
    }

    /** pbuf_copy_partial. */
    method CopyIn(seg: seq<byte>)
      requires Valid() && used + |seg| <= REQ_BUF_MAX
      modifies buf
      ensures buf[..used + |seg|] == old(buf[..used]) + seg
      ensures forall k :: used + |seg| <= k < REQ_BUF_MAX ==> buf[k] == 0
    {
      for i := 0 to |seg|
        invariant forall k :: used + i <= k < REQ_BUF_MAX ==> buf[k] == 0
        invariant buf[..used + i] == old(buf[..used]) + seg[..i]
      {
        buf[used + i] := seg[i];
      }
      assert seg[..|seg|] == seg;
    }

    /** on_recv for a segment of data. A segment that fills the buffer before the headers
        are complete leaves no room for the terminator. */
    method OnRecv(routes: seq<Route>, seg: seq<byte>) returns (s: Step)
      requires Valid() && (haveHeaders || used + |seg| != REQ_BUF_MAX)
      modifies this, buf
      ensures Valid() && s == Receive(routes, old(State()), seg)
      ensures s.Waiting? ==> State() == s.conn
    {
      hide Dispatch, HeaderEnd, ContentLength, Complete;
      ghost var was := State();
      if used + |seg| > REQ_BUF_MAX { return TooLarge; }
      CopyIn(seg);
      used := used + |seg|;
      assert State() == was.(data := was.data + seg);
      if !haveHeaders { ParseHeadersInPlace(); }
      var complete := RequestComplete();
      if !complete { return Waiting(Conn(buf[..used], haveHeaders, contentLength, bodyOffset)); }
      assert haveHeaders by { CompleteHasHeaders(State()); }
      var a := DispatchRequest(routes);
      return Answered(a);
    }
  }

  lemma MatchesMeans(r: Route, verb: seq<byte>, path: seq<byte>)
    ensures Matches(verb, path)(r) <==> r.verb == verb && r.path == path
  {
  }

  lemma CompleteHasHeaders(c: Conn)
    requires Complete(c)
    ensures c.haveHeaders
  {
  }
}
