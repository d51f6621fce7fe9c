/**
 WsgiToAsgiInstance: what a WSGI application says through start_response and its output, as ASGI messages,
 with the body cut to the declared Content-Length.
 */
module Wsgi {
  import opened Contexts
  import opened Utf8
  import opened WsgiRequest

  datatype Head = Head(status: int, headers: seq<(string, string)>)

  datatype Message = Start(head: Head) | Body(body: Bytes, more: bool)

  /** The arguments of a start_response call. excInfo says whether exc_info was given. */
  datatype Args = Args(status: string, headers: seq<(string, string)>, excInfo: bool)

  /** What start_response does with a call: accept it, or raise. */
  datatype Verdict = Accepted | Reraised | CalledTwice | BadStatus | BadHeader | BadLength

  /** What the application does next: call start_response, and go on if that raises or let the exception out;
      or yield a chunk of output. */
  datatype Event = StartResponse(args: Args, catches: bool) | Yield(chunk: Bytes)

  /** response_started, response_start and response_content_length. */
  datatype Response = Response(started: bool, head: Option<Head>, length: Option<int>)

  datatype End = Completed | Crashed

  // ---- start_response ----------------------------------------------------------------

  predicate Ascii(s: string) {
    forall c :: c in s ==> c < 128 as char
  }

  /** The one character outside ASCII whose lower case is in it, a k. */
  const KELVIN := '\U{212A}'

  /** str.lower(), as far as it gives ASCII. */
  function Lower(s: string): string {
    if s == [] then []
    else [if 'A' <= s[0] <= 'Z' then s[0] + 32 as char else if s[0] == KELVIN then 'k' else s[0]] + Lower(s[1..])
  }

  /** status.split(" ", 1)[0], if there is a space to split at. */
  function Code(status: string): Option<string> {
    if status == [] then None
    else if status[0] == ' ' then Some([])
    else match Code(status[1..])
      case Some(rest) => Some([status[0]] + rest)
      case None => None
  }

  function Lowered(headers: seq<(string, string)>): seq<(string, string)> {
    if headers == [] then [] else [(Lower(headers[0].0), headers[0].1)] + Lowered(headers[1..])
  }

  /** The status code is what comes before the first space, and there is none if there is no space. */
  lemma {:induction false} CodeExactly(status: string, k: nat)
    requires k < |status| && status[k] == ' ' && ' ' !in status[..k]
    ensures Code(status) == Some(status[..k])
  {
    if k > 0 {
      assert status[1..][..k - 1] == status[..k][1..] && status[0] == status[..k][0];
      CodeExactly(status[1..], k - 1);
      assert [status[0]] + status[1..][..k - 1] == status[..k];
    }
  }

  lemma {:induction false} CodeNeedsSpace(status: string)
    ensures Code(status).Some? <==> ' ' in status
  {
    if status != [] && status[0] != ' ' {
      CodeNeedsSpace(status[1..]);
      assert status == [status[0]] + status[1..];
    }
  }

  /** A lower-cased name is that name, character by character, with no ASCII capital in it; and names of ASCII are the
      same in lower case exactly if they are the same but for case. */
  lemma {:induction false} LowerIsLower(name: string)
    ensures |Lower(name)| == |name|
    ensures forall i :: 0 <= i < |name| ==>
              var c, d := name[i], Lower(name)[i];
              && !('A' <= d <= 'Z')
              && (d == c || ('A' <= c <= 'Z' && d == c + 32 as char) || (c == KELVIN && d == 'k'))
              && (c == KELVIN ==> d == 'k')
  {
    if name != [] {
      LowerIsLower(name[1..]);
    }
  }

  /** The start message has all the headers, in order, the names in lower case and the values as they are. */
  lemma {:induction false} LoweredIsEach(headers: seq<(string, string)>)
    ensures |Lowered(headers)| == |headers|
    ensures forall i :: 0 <= i < |headers| ==> Lowered(headers)[i] == (Lower(headers[i].0), headers[i].1)
  {
    if headers != [] {
      LoweredIsEach(headers[1..]);
    }
  }

  const CONTENT_LENGTH := "content-length"

  /** int(value) of the Content-Length headers in turn, starting from so far: the value left behind, and whether
      all of them were numbers. */
  function Lengths(headers: seq<(string, string)>, soFar: Option<int>, toInt: string -> Option<int>)
    : (Option<int>, bool)
  {
    if headers == [] then (soFar, true)
    else if Lower(headers[0].0) != CONTENT_LENGTH then Lengths(headers[1..], soFar, toInt)
    else if toInt(headers[0].1).None? then (soFar, false)
    else Lengths(headers[1..], toInt(headers[0].1), toInt)
  }

  /** A start_response call on a response. toInt is Python's int(). */
  function Call(r: Response, a: Args, toInt: string -> Option<int>): (Response, Verdict) {
    if r.started then (r, Reraised)
    else if r.head.Some? && !a.excInfo then (r, CalledTwice)
    else if Code(a.status).None? || toInt(Code(a.status).value).None? then (r, BadStatus)
    else if exists h :: h in a.headers && !(Ascii(Lower(h.0)) && Ascii(h.1)) then (r, BadHeader)
    else
      var (length, numeric) := Lengths(a.headers, None, toInt);
      if !numeric then (r.(length := length), BadLength)
      else (r.(head := Some(Head(toInt(Code(a.status).value).value, Lowered(a.headers))), length := length), Accepted)
  }

  lemma {:induction false} AllNumeric(headers: seq<(string, string)>, soFar: Option<int>, toInt: string -> Option<int>)
    ensures Lengths(headers, soFar, toInt).1 <==>
      forall h <- headers :: Lower(h.0) == CONTENT_LENGTH ==> toInt(h.1).Some?
  {
    if headers != [] {
      var first, rest := headers[0], headers[1..];
      AllNumeric(rest, if Lower(first.0) == CONTENT_LENGTH then toInt(first.1) else soFar, toInt);
      assert forall h <- headers :: h == first || h in rest;
      assert forall h <- rest :: h in headers;
    }
  }

  /** A call is accepted if and only if nothing was sent yet, it is the first or has exc_info, its status begins with a
      number and a space, its headers are ASCII, and its Content-Lengths are numbers. */
  lemma AcceptedExactly(r: Response, a: Args, toInt: string -> Option<int>)
    ensures Call(r, a, toInt).1.Accepted? <==>
      && !r.started && (r.head.None? || a.excInfo)
      && Code(a.status).Some? && toInt(Code(a.status).value).Some?
      && (forall h <- a.headers :: Ascii(Lower(h.0)) && Ascii(h.1))
      && (forall h <- a.headers :: Lower(h.0) == CONTENT_LENGTH ==> toInt(h.1).Some?)
  {
    AllNumeric(a.headers, None, toInt);
  }

  /** Why a call is rejected: the first of these that applies, in this order. */
  lemma RejectedBecause(r: Response, a: Args, toInt: string -> Option<int>)
    ensures
      var v := Call(r, a, toInt).1;
      var again := r.head.Some? && !a.excInfo;
      var badStatus := Code(a.status).None? || toInt(Code(a.status).value).None?;
      var badHeader := exists h <- a.headers :: !Ascii(Lower(h.0)) || !Ascii(h.1);
      var badLength := exists h <- a.headers :: Lower(h.0) == CONTENT_LENGTH && toInt(h.1).None?;
      && (v.Reraised? <==> r.started)
      && (v.CalledTwice? <==> !r.started && again)
      && (v.BadStatus? <==> !r.started && !again && badStatus)
      && (v.BadHeader? <==> !r.started && !again && !badStatus && badHeader)
      && (v.BadLength? <==> !r.started && !again && !badStatus && !badHeader && badLength)
  {
    AllNumeric(a.headers, None, toInt);
  }

  /** Header k is the first Content-Length that is not a number. */
  predicate FirstBad(headers: seq<(string, string)>, k: nat, toInt: string -> Option<int>)
    requires k < |headers|
  {
    && Lower(headers[k].0) == CONTENT_LENGTH && toInt(headers[k].1).None?
    && forall j :: 0 <= j < k && Lower(headers[j].0) == CONTENT_LENGTH ==> toInt(headers[j].1).Some?
  }

  /** Parsing stops at the first bad length, with what the headers before it declared. */
  lemma {:induction false} StopsAtFirstBad(headers: seq<(string, string)>, soFar: Option<int>, k: nat,
      toInt: string -> Option<int>)
    requires k < |headers| && FirstBad(headers, k, toInt)
    ensures Lengths(headers[..k], soFar, toInt).1
    ensures Lengths(headers, soFar, toInt) == (Lengths(headers[..k], soFar, toInt).0, false)
  {
    if k > 0 {
      var rest, next := headers[1..], if Lower(headers[0].0) == CONTENT_LENGTH then toInt(headers[0].1) else soFar;
      assert headers[..k][1..] == rest[..k - 1];
      StopsAtFirstBad(rest, next, k - 1, toInt);
    }
  }

  lemma {:induction false} SomeFirstBad(
    headers: seq<(string, string)>, soFar: Option<int>, toInt: string -> Option<int>)
    returns (k: nat)
    requires !Lengths(headers, soFar, toInt).1
    ensures k < |headers| && FirstBad(headers, k, toInt)
  {
    if Lower(headers[0].0) == CONTENT_LENGTH && toInt(headers[0].1).None? {
      return 0;
    }
    var next := if Lower(headers[0].0) == CONTENT_LENGTH then toInt(headers[0].1) else soFar;
    k := SomeFirstBad(headers[1..], next, toInt);
    return k + 1;
  }

  /** The call gets as far as parsing the lengths, one is not a number, and those before it declare another length than
      the one in force. */
  ghost predicate LeavesOtherLength(r: Response, a: Args, toInt: string -> Option<int>) {
    && !r.started && (r.head.None? || a.excInfo)
    && Code(a.status).Some? && toInt(Code(a.status).value).Some?
    && (forall h <- a.headers :: Ascii(Lower(h.0)) && Ascii(h.1))
    && exists k :: 0 <= k < |a.headers| && FirstBad(a.headers, k, toInt)
        && DeclaredLength(a.headers[..k], toInt) != r.length
  }

  /** A rejected call changes something if and only if it leaves another length, and then it changes only the length:
      the start message of the call accepted before it keeps a limit that is not its own. */
  lemma RejectedChangesNothing(r: Response, a: Args, toInt: string -> Option<int>)
    ensures !Call(r, a, toInt).1.Accepted? && Call(r, a, toInt).0 != r <==> LeavesOtherLength(r, a, toInt)
    ensures !Call(r, a, toInt).1.Accepted? ==> Call(r, a, toInt).0 == r.(length := Call(r, a, toInt).0.length)
  {
    AcceptedExactly(r, a, toInt);
    if !Lengths(a.headers, None, toInt).1 {
      var k := SomeFirstBad(a.headers, None, toInt);
      StopsAtFirstBad(a.headers, None, k, toInt);
      AcceptedLength(a.headers[..k], toInt);
      forall j | 0 <= j < |a.headers| && FirstBad(a.headers, j, toInt) ensures j == k {
        assert !(j < k) && !(k < j);
      }
    }
  }

  /** A call with exc_info whose Content-Length, however spelled, is not a number is refused, and still lifts the limit
      set by the accepted call before it. */
  lemma RejectedCallLiftsTheLimit(status: string, name: string, good: string, bad: string, toInt: string -> Option<int>)
    requires Code(status).Some? && toInt(Code(status).value).Some? && Lower(name) == CONTENT_LENGTH
    requires Ascii(good) && Ascii(bad) && toInt(good).Some? && toInt(bad).None?
    ensures var first := Call(Response(false, None, None), Args(status, [(name, good)], false), toInt);
            var second := Call(first.0, Args(status, [(name, bad)], true), toInt);
            && first.1.Accepted? && first.0.length == toInt(good)
            && second.1.BadLength? && second.0.head == first.0.head && second.0.length == None
  {
    var r0 := Response(false, None, None);
    OneHeader(r0, status, name, good, false, toInt);
    OneHeader(Call(r0, Args(status, [(name, good)], false), toInt).0, status, name, bad, true, toInt);
  }

  /** A call whose one header is a Content-Length gets as far as parsing it. */
  lemma OneHeader(r: Response, status: string, name: string, value: string, excInfo: bool, toInt: string -> Option<int>)
    requires Code(status).Some? && toInt(Code(status).value).Some? && Lower(name) == CONTENT_LENGTH
    requires !r.started && (r.head.Some? ==> excInfo) && Ascii(value)
    ensures var (r', v) := Call(r, Args(status, [(name, value)], excInfo), toInt);
            if toInt(value).Some? then v.Accepted? && r'.length == toInt(value)
            else v.BadLength? && r' == r.(length := None)
  {
    var headers := [(name, value)];
    assert headers[1..] == [];
    assert Lengths(headers, None, toInt) == (toInt(value), toInt(value).Some?);
  }

  // ---- the body ----------------------------------------------------------------------

  /** Python's output[:n], which counts from the end when n is negative. */
  function Upto(s: Bytes, n: int): Bytes {
    if n >= |s| then s
    else if n >= 0 then s[..n]
    else if |s| + n > 0 then s[..|s| + n]
    else []
  }

  /** The piece of a chunk that is sent, when some bytes have been sent already. */
  function Clip(length: Option<int>, sent: nat, chunk: Bytes): Bytes {
    if length.Some? && |chunk| > length.value - sent then Upto(chunk, length.value - sent) else chunk
  }

  /** The pieces sent for a list of chunks. */
  function Pieces(length: Option<int>, sent: nat, chunks: seq<Bytes>): seq<Bytes>
    decreases |chunks|
  {
    if chunks == [] then []
    else
      var piece := Clip(length, sent, chunks[0]);
      if length == Some(sent + |piece|) then [piece] else [piece] + Pieces(length, sent + |piece|, chunks[1..])
  }

  /** The least number of chunks, at least one, that make up n bytes; all of them if none does. */
  predicate Enough(chunks: seq<Bytes>, n: nat, k: nat) {
    && k <= |chunks|
    && (chunks != [] ==> k >= 1)
    && (k < |chunks| ==> |Concat(chunks[..k])| >= n)
    && forall j :: 1 <= j < k ==> |Concat(chunks[..j])| < n
  }

  lemma {:induction false} ConcatTake(chunks: seq<Bytes>, j: nat)
    requires 1 <= j <= |chunks|
    ensures Concat(chunks[..j]) == chunks[0] + Concat(chunks[1..][..j - 1])
  {
    assert chunks[..j][1..] == chunks[1..][..j - 1];
  }

  /** Body clamping, from any point of the response: with n bytes still allowed, the bytes sent are the first n of
      what is left, and no chunk beyond the least number that makes up n is asked for. */
  lemma {:induction false} ClampedBody(length: int, sent: nat, chunks: seq<Bytes>)
    requires sent <= length
    ensures var n := length - sent;
            var pieces := Pieces(Some(length), sent, chunks);
            && Concat(pieces) == (if n <= |Concat(chunks)| then Concat(chunks)[..n] else Concat(chunks))
            && Enough(chunks, n, |pieces|)
    decreases |chunks|
  {
    if chunks != [] {
      var n, piece, pieces := length - sent, Clip(Some(length), sent, chunks[0]), Pieces(Some(length), sent, chunks);
      assert Concat(chunks) == chunks[0] + Concat(chunks[1..]);
      ConcatTake(chunks, 1);
      assert Concat(chunks[1..][..0]) == [];
      if |chunks[0]| >= n {
        assert pieces == [piece] && piece == chunks[0][..n];
        assert Concat([piece]) == piece + Concat([]);
      } else {
        ClampedBody(length, sent + |piece|, chunks[1..]);
        assert Concat(pieces) == pieces[0] + Concat(pieces[1..]);
        EnoughStep(chunks, n, |pieces| - 1);
      }
    }
  }

  lemma EnoughStep(chunks: seq<Bytes>, n: nat, k: nat)
    requires chunks != [] && |chunks[0]| < n && Enough(chunks[1..], n - |chunks[0]|, k)
    ensures Enough(chunks, n, k + 1)
  {
    forall j | 1 <= j < k + 1 ensures |Concat(chunks[..j])| < n {
      ConcatTake(chunks, j);
      assert Concat(chunks[1..][..0]) == [];
    }
    if k + 1 < |chunks| {
      ConcatTake(chunks, k + 1);
    }
  }

  /** Without a declared length the output is sent unchanged. */
  lemma {:induction false} UnclampedBody(sent: nat, chunks: seq<Bytes>)
    ensures Pieces(None, sent, chunks) == chunks
    decreases |chunks|
  {
    if chunks != [] {
      UnclampedBody(sent + |chunks[0]|, chunks[1..]);
    }
  }

  /** All but the last n bytes. */
  function ButLast(chunk: Bytes, n: nat): Bytes {
    if n <= |chunk| then chunk[..|chunk| - n] else []
  }

  /** What a negative length delivers: of every chunk all but the last bytes, as many as were sent so far and the length
      below zero; and no chunk is left out. */
  lemma {:induction false} NegativeLength(length: int, sent: nat, chunks: seq<Bytes>, j: nat)
    requires length < 0 && j < |chunks|
    ensures var pieces := Pieces(Some(length), sent, chunks);
            && |pieces| == |chunks|
            && pieces[j] == ButLast(chunks[j], sent + |Concat(pieces[..j])| - length)
    decreases |chunks|
  {
    var piece, pieces := Clip(Some(length), sent, chunks[0]), Pieces(Some(length), sent, chunks);
    var rest := Pieces(Some(length), sent + |piece|, chunks[1..]);
    assert pieces == [piece] + rest;
    if |chunks| > 1 {
      NegativeLength(length, sent + |piece|, chunks[1..], if j > 0 then j - 1 else 0);
    }
    if j > 0 {
      SentBefore(piece, rest, j);
      assert chunks[1..][j - 1] == chunks[j];
    } else {
      assert pieces[..0] == [];
    }
  }

  lemma SentBefore(piece: Bytes, rest: seq<Bytes>, j: nat)
    requires 0 < j <= |rest|
    ensures var pieces := [piece] + rest;
            pieces[j] == rest[j - 1] && |Concat(pieces[..j])| == |piece| + |Concat(rest[..j - 1])|
  {
    var pieces := [piece] + rest;
    assert pieces[1..] == rest;
    ConcatTake(pieces, j);
  }

  /** No output makes it send more than declared, or anything when less than nothing is declared, exactly if the
      length is not negative. */
  lemma {:induction false} NeverTooMuch(length: int)
    ensures (forall chunks :: |Concat(Pieces(Some(length), 0, chunks))| <= (if length < 0 then 0 else length))
            <==> length >= 0
  {
    if length >= 0 {
      forall chunks ensures |Concat(Pieces(Some(length), 0, chunks))| <= length {
        ClampedBody(length, 0, chunks);
      }
    } else {
      var chunk: Bytes := seq(1 - length, _ => 0);
      NegativeLength(length, 0, [chunk], 0);
      var pieces := Pieces(Some(length), 0, [chunk]);
      assert Concat(pieces[..0]) == [] && pieces[0] == chunk[..1];
      assert Concat(pieces) == pieces[0] + Concat(pieces[1..]);
    }
  }

  // ---- the whole response ------------------------------------------------------------

  /** What is still to be sent after a piece. */
  function After(length: Option<int>, sent: nat, chunks: seq<Bytes>): seq<Bytes> {
    if length == Some(sent) then [] else Pieces(length, sent, chunks)
  }

  lemma PiecesFrom(length: Option<int>, sent: nat, chunks: seq<Bytes>, piece: Bytes)
    requires chunks != [] && piece == Clip(length, sent, chunks[0])
    ensures Pieces(length, sent, chunks) == [piece] + After(length, sent + |piece|, chunks[1..])
  {
    assert [piece] + [] == [piece];
  }

  lemma PiecesNext(length: Option<int>, sent: nat, chunk: Bytes, chunks: seq<Bytes>, before: seq<Bytes>)
    ensures var piece := Clip(length, sent, chunk);
            before + Pieces(length, sent, [chunk] + chunks) == before + [piece] + After(length, sent + |piece|, chunks)
  {
    var piece, all := Clip(length, sent, chunk), [chunk] + chunks;
    var rest := After(length, sent + |piece|, chunks);
    assert all[0] == chunk && all[1..] == chunks;
    PiecesFrom(length, sent, all, piece);
    assert before + ([piece] + rest) == before + [piece] + rest;
  }

  predicate AllMore(ms: seq<Message>) {
    forall m :: m in ms ==> m.Body? && m.more
  }

  /** An ASGI response that is going on: nothing yet, or a start message and bodies with more to come. */
  predicate Going(ms: seq<Message>) {
    ms == [] || (ms[0].Start? && AllMore(ms[1..]))
  }

  /** A complete ASGI response: one start message, then bodies with more to come, then one last body. */
  predicate Complete(ms: seq<Message>) {
    |ms| >= 2 && Going(ms[..|ms| - 1]) && ms[|ms| - 1].Body? && !ms[|ms| - 1].more
  }

  /** The chunks among the events from the i-th on. */
  function Chunks(events: seq<Event>, i: nat): seq<Bytes>
    decreases |events| - i
  {
    if i >= |events| then []
    else if events[i].Yield? then [events[i].chunk] + Chunks(events, i + 1)
    else Chunks(events, i + 1)
  }

  /** They are the chunks of exactly the events that yield one, in order. */
  lemma {:induction false} ChunksOfThose(events: seq<Event>, i: nat) returns (at: seq<nat>)
    requires i <= |events|
    ensures |at| == |Chunks(events, i)|
    ensures forall j :: 0 <= j < |at| ==>
              i <= at[j] < |events| && events[at[j]].Yield? && Chunks(events, i)[j] == events[at[j]].chunk
    ensures forall j, k :: 0 <= j < k < |at| ==> at[j] < at[k]
    ensures forall k :: i <= k < |events| && events[k].Yield? ==> k in at
    decreases |events| - i
  {
    if i == |events| {
      return [];
    }
    at := ChunksOfThose(events, i + 1);
    if events[i].Yield? {
      at := [i] + at;
    }
  }

  /** The response as start_response leaves it before the first chunk from the i-th event on. */
  function Settled(r: Response, events: seq<Event>, i: nat, toInt: string -> Option<int>): Response
    decreases |events| - i
  {
    if i >= |events| || events[i].Yield? then r
    else Settled(Call(r, events[i].args, toInt).0, events, i + 1, toInt)
  }

  /** The last start_response call before the first chunk that was accepted. */
  function LastAccepted(r: Response, events: seq<Event>, i: nat, toInt: string -> Option<int>): Option<Args>
    decreases |events| - i
  {
    if i >= |events| || events[i].Yield? then None
    else
      var (next, verdict) := Call(r, events[i].args, toInt);
      match LastAccepted(next, events, i + 1, toInt)
      case Some(a) => Some(a)
      case None => if verdict.Accepted? then Some(events[i].args) else None
  }

  /** No call before the first chunk is rejected for its Content-Length. */
  predicate LengthsParse(r: Response, events: seq<Event>, i: nat, toInt: string -> Option<int>)
    decreases |events| - i
  {
    i >= |events| || events[i].Yield? ||
    (!Call(r, events[i].args, toInt).1.BadLength?
     && LengthsParse(Call(r, events[i].args, toInt).0, events, i + 1, toInt))
  }

  /** The last Content-Length among the headers, as a number. */
  function DeclaredLength(headers: seq<(string, string)>, toInt: string -> Option<int>): Option<int> {
    if headers == [] then None
    else
      var last := headers[|headers| - 1];
      if Lower(last.0) == CONTENT_LENGTH then toInt(last.1) else DeclaredLength(headers[..|headers| - 1], toInt)
  }

  /** It is the value of the header after which none is a Content-Length, and none if none is. */
  lemma {:induction false} DeclaredIsLast(headers: seq<(string, string)>, k: nat, toInt: string -> Option<int>)
    requires k <= |headers| && forall j :: k <= j < |headers| ==> Lower(headers[j].0) != CONTENT_LENGTH
    requires k > 0 ==> Lower(headers[k - 1].0) == CONTENT_LENGTH
    ensures DeclaredLength(headers, toInt) == if k > 0 then toInt(headers[k - 1].1) else None
    decreases |headers|
  {
    if k < |headers| {
      DeclaredIsLast(headers[..|headers| - 1], k, toInt);
    }
  }

  lemma {:induction false} LengthsIsDeclared(
    headers: seq<(string, string)>, soFar: Option<int>, toInt: string -> Option<int>)
    requires Lengths(headers, soFar, toInt).1
    ensures Lengths(headers, soFar, toInt).0 ==
      if exists h <- headers :: Lower(h.0) == CONTENT_LENGTH then DeclaredLength(headers, toInt) else soFar
  {
    if headers != [] {
      var first, rest := headers[0], headers[1..];
      LengthsIsDeclared(rest, if Lower(first.0) == CONTENT_LENGTH then toInt(first.1) else soFar, toInt);
      DeclaredSplits([first], rest, toInt);
      assert headers == [first] + rest;
      assert forall h <- headers :: h == first || h in rest;
    }
  }

  lemma {:induction false} DeclaredSplits(
    a: seq<(string, string)>, b: seq<(string, string)>, toInt: string -> Option<int>)
    ensures DeclaredLength(a + b, toInt) ==
      if exists h <- b :: Lower(h.0) == CONTENT_LENGTH then DeclaredLength(b, toInt) else DeclaredLength(a, toInt)
  {
    if b == [] {
      assert a + b == a;
    } else {
      var last, rest := b[|b| - 1], b[..|b| - 1];
      assert (a + b)[..|a + b| - 1] == a + rest;
      DeclaredSplits(a, rest, toInt);
      assert b == rest + [last];
    }
  }

  lemma AcceptedLength(headers: seq<(string, string)>, toInt: string -> Option<int>)
    requires Lengths(headers, None, toInt).1
    ensures Lengths(headers, None, toInt).0 == DeclaredLength(headers, toInt)
  {
    LengthsIsDeclared(headers, None, toInt);
    if forall h <- headers :: Lower(h.0) != CONTENT_LENGTH {
      NoneDeclared(headers, toInt);
    }
  }

  /** Unless a call is rejected for its Content-Length, the start message and the limit both come from the last call
      accepted before the first chunk, and every rejected call is as if it had not been made. */
  lemma {:induction false} LastAcceptedCounts(r: Response, events: seq<Event>, i: nat, toInt: string -> Option<int>)
    requires !r.started && LengthsParse(r, events, i, toInt)
    ensures
      var s, last := Settled(r, events, i, toInt), LastAccepted(r, events, i, toInt);
      if last.None? then s == r
      else
        && !s.started && Code(last.value.status).Some?
        && toInt(Code(last.value.status).value).Some?
        && s.head == Some(Head(toInt(Code(last.value.status).value).value, Lowered(last.value.headers)))
        && s.length == DeclaredLength(last.value.headers, toInt)
    decreases |events| - i
  {
    if i < |events| && events[i].StartResponse? {
      var (next, verdict) := Call(r, events[i].args, toInt);
      LastAcceptedCounts(next, events, i + 1, toInt);
      if verdict.Accepted? {
        AcceptedLength(events[i].args.headers, toInt);
      }
    }
  }

  lemma {:induction false} NoneDeclared(headers: seq<(string, string)>, toInt: string -> Option<int>)
    requires forall h <- headers :: Lower(h.0) != CONTENT_LENGTH
    ensures DeclaredLength(headers, toInt) == None
  {
    if headers != [] {
      NoneDeclared(headers[..|headers| - 1], toInt);
    }
  }

  function Bodies(pieces: seq<Bytes>): seq<Message> {
    seq(|pieces|, k requires 0 <= k < |pieces| => Body(pieces[k], true))
  }

  /** What build_environ reads of the scope and can fail on. */
  datatype Scope = Scope(rootPath: seq<CodePoint>, path: seq<CodePoint>, query: Bytes, headers: seq<(string, string)>)

  /** build_environ raises no ValueError. */
  ghost predicate Buildable(scope: Scope, limit: Option<int>) {
    && Encodable(scope.rootPath) && Encodable(scope.path)
    && (forall b :: b in scope.query ==> b < 128)
    && Within(scope.headers, limit, |scope.headers|, CorrectedName)
  }

  class WsgiToAsgiInstance {
    const toInt: string -> Option<int>
    var response: Response
    var sent: seq<Message>

    constructor (toInt: string -> Option<int>)
      ensures response == Response(false, None, None) && sent == [] && this.toInt == toInt
    {
      this.toInt := toInt;
      response := Response(false, None, None);
      sent := [];
    }

    /** Parse the Content-Length headers into response_content_length, stopping where int() raises. */
    method ReadLengths(headers: seq<(string, string)>) returns (numeric: bool)
      modifies this
      ensures (response.length, numeric) == Lengths(headers, None, toInt)
      ensures response == old(response).(length := response.length) && sent == old(sent)
    {
      response := response.(length := None);
      var i := 0;
      while i < |headers|
        invariant 0 <= i <= |headers| && response == old(response).(length := response.length) && sent == old(sent)
        invariant Lengths(headers, None, toInt) == Lengths(headers[i..], response.length, toInt)
      {
        assert headers[i..][1..] == headers[i + 1..];
        if Lower(headers[i].0) == CONTENT_LENGTH {
          var n := toInt(headers[i].1);
          if n.None? {
            return false;
          }
          response := response.(length := n);
        }
        i := i + 1;
      }
      return true;
    }

    /** start_response: the verdict, and the state it leaves whether it accepts or raises. */
    method StartResponse(a: Args) returns (v: Verdict)
      modifies this
      ensures (response, v) == Call(old(response), a, toInt) && sent == old(sent)
    {
      if response.started {
        return Reraised;
      }
      if response.head.Some? && !a.excInfo {
        return CalledTwice;
      }
      var code := Code(a.status);
      if code.None? || toInt(code.value).None? {
        return BadStatus;
      }
      if exists h :: h in a.headers && !(Ascii(Lower(h.0)) && Ascii(h.1)) {
        return BadHeader;
      }
      var numeric := ReadLengths(a.headers);
      if !numeric {
        return BadLength;
      }
      response := response.(head := Some(Head(toInt(code.value).value, Lowered(a.headers))));
      return Accepted;
    }

    /** What has been sent while the response was going on. */
    ghost predicate Sending(r0: Response, pieces: seq<Bytes>)
      reads this
    {
      if response.started
      then response == r0.(started := true) && r0.head.Some? && sent == [Start(r0.head.value)] + Bodies(pieces)
      else sent == [] && pieces == []
    }

    /** One round of the loop over the output: the start message if this is the first, and the clamped chunk. */
    method SendChunk(chunk: Bytes, bytesSent: nat, ghost r0: Response, ghost pieces: seq<Bytes>)
      returns (ok: bool, output: Bytes)
      requires Sending(r0, pieces) && (!response.started ==> response == r0)
      modifies this
      ensures ok == (old(response).started || old(response).head.Some?)
      ensures ok ==> response.started && output == Clip(r0.length, bytesSent, chunk) && Sending(r0, pieces + [output])
      ensures !ok ==> sent == old(sent) == [] && response == old(response).(started := true)
    {
      if !response.started {
        response := response.(started := true);
        if response.head.None? {
          return false, [];
        }
        sent := sent + [Start(response.head.value)];
      }
      output := Clip(response.length, bytesSent, chunk);
      sent := sent + [Body(output, true)];
      assert Bodies(pieces + [output]) == Bodies(pieces) + [Body(output, true)];
      return true, output;
    }

    /** A start_response call while the response is going on, as the loop sees it: it settles the response further
        until something has been sent, and then changes nothing. */
    method Respond(a: Args, ghost events: seq<Event>, ghost i: nat, ghost r0: Response, ghost pieces: seq<Bytes>)
      returns (v: Verdict)
      requires i < |events| && events[i].StartResponse? && events[i].args == a && Sending(r0, pieces)
      requires !response.started ==> Settled(response, events, i, toInt) == r0
      modifies this
      ensures Sending(r0, pieces) && response.started == old(response).started
      ensures !response.started ==> Settled(response, events, i + 1, toInt) == r0
    {
      v := StartResponse(a);
    }

    /** The loop of run_wsgi_app over the application's output. */
    method SendChunks(events: seq<Event>) returns (ok: bool, ghost pieces: seq<Bytes>)
      requires response == Response(false, None, None) && sent == []
      modifies this
      ensures var r0 := Settled(Response(false, None, None), events, 0, toInt);
              && (ok ==> Sending(r0, pieces) && pieces == Pieces(r0.length, 0, Chunks(events, 0))
                         && (!response.started ==> response == r0))
              && (!ok ==> sent == [] || (response.started && Sending(r0, pieces)))
    {
      var bytesSent: nat, i: nat := 0, 0;
      ghost var r0 := Settled(response, events, 0, toInt);
      pieces := [];
      ghost var all := Pieces(r0.length, 0, Chunks(events, 0));
      while i < |events|
        invariant 0 <= i <= |events| && Sending(r0, pieces)
        invariant !response.started ==> bytesSent == 0 && Settled(response, events, i, toInt) == r0
        invariant all == pieces + Pieces(r0.length, bytesSent, Chunks(events, i))
      {
        match events[i] {
          case StartResponse(a, catches) =>
            var v := Respond(a, events, i, r0, pieces);
            if !v.Accepted? && !catches {
              return false, pieces;
            }
          case Yield(chunk) =>
            var sentNow, output := SendChunk(chunk, bytesSent, r0, pieces);
            if !sentNow {
              return false, pieces;
            }
            PiecesNext(r0.length, bytesSent, chunk, Chunks(events, i + 1), pieces);
            pieces := pieces + [output];
            bytesSent := bytesSent + |output|;
            if response.length == Some(bytesSent) {
              assert pieces + [] == pieces;
              return true, pieces;
            }
        }
        i := i + 1;
      }
      assert pieces + [] == pieces;
      return true, pieces;
    }

    /** run_wsgi_app, from the call of the application on. A completed response is one start message and the bodies for
        the application's chunks, clamped, and one last body; head and length are those start_response left
        before the first chunk. A crash leaves a response that is going on. */
    method RunApplication(events: seq<Event>) returns (end: End)
      requires response == Response(false, None, None) && sent == []
      modifies this
      ensures end.Completed? ==> Complete(sent) && response.head.Some?
      ensures end.Crashed? ==> Going(sent)
      ensures end.Completed? ==>
                var r := Settled(Response(false, None, None), events, 0, toInt);
                && response == r.(started := true)
                && sent == [Start(r.head.value)] + Bodies(Pieces(r.length, 0, Chunks(events, 0))) + [Body([], false)]
    {
      ghost var r0 := Settled(response, events, 0, toInt);
      var ok, pieces := SendChunks(events);
      if response.started && sent != [] {
        Grammar(r0.head.value, pieces);
      }
      if !ok {
        return Crashed;
      }
      if !response.started {
        response := response.(started := true);
        if response.head.None? {
          return Crashed;
        }
        sent := sent + [Start(response.head.value)];
        Grammar(r0.head.value, []);
        assert Bodies([]) == [];
      }
      sent := sent + [Body([], false)];
      return Completed;
    }

    /** run_wsgi_app. build_environ raises a ValueError, and the answer is then a complete 400 response without the
        application being called, exactly when the path or its root cannot be encoded, the query string is not ASCII, or
        some header is one too many of its kind. */
    method RunWsgiApp(scope: Scope, limit: Option<int>, apology: Bytes, events: seq<Event>) returns (end: End)
      requires response == Response(false, None, None) && sent == []
      modifies this
      ensures end.Completed? ==> Complete(sent)
      ensures end.Crashed? ==> Buildable(scope, limit) && Going(sent)
      ensures !Buildable(scope, limit) ==>
        end.Completed? && sent[0].head.status == 400 && Payload(sent) == apology && !response.started
      ensures Buildable(scope, limit) && end.Completed? ==>
        var r := Settled(Response(false, None, None), events, 0, toInt);
        r.head.Some?
        && sent == [Start(r.head.value)] + Bodies(Pieces(r.length, 0, Chunks(events, 0))) + [Body([], false)]
    {
      var split := SplitPath(scope.rootPath, scope.path);
      if split.Some? && (forall b :: b in scope.query ==> b < 128) {
        var entries := BuildHeaders(scope.headers, limit);
        if entries.Some? {
          end := RunApplication(events);
          return;
        }
      }
      var start := Start(Head(400, [("content-type", "text/plain")]));
      sent := [start] + [Body(apology, false)];
      assert sent[..1] == [start] && sent[1..] == [Body(apology, false)];
      assert Payload(sent[1..]) == apology + Payload([]);
      return Completed;
    }
  }

  /** The bytes the client gets. */
  function Payload(ms: seq<Message>): Bytes {
    if ms == [] then [] else (if ms[0].Body? then ms[0].body else []) + Payload(ms[1..])
  }

  lemma {:induction false} PayloadOfBodies(pieces: seq<Bytes>, last: seq<Message>)
    ensures Payload(Bodies(pieces) + last) == Concat(pieces) + Payload(last)
    decreases |pieces|
  {
    if pieces == [] {
      assert Bodies(pieces) + last == last;
    } else {
      assert Bodies(pieces)[0] == Body(pieces[0], true) && Bodies(pieces)[1..] == Bodies(pieces[1..]);
      assert (Bodies(pieces) + last)[1..] == Bodies(pieces[1..]) + last;
      PayloadOfBodies(pieces[1..], last);
    }
  }

  /** What a completed response delivers: all of the output when no length was declared, and otherwise, for a length
      that is not negative, exactly the first that many bytes of it, from the fewest chunks that suffice. */
  lemma {:induction false} DeliveredPayload(head: Head, length: Option<int>, chunks: seq<Bytes>)
    ensures var pieces := Pieces(length, 0, chunks);
            var payload := Payload([Start(head)] + Bodies(pieces) + [Body([], false)]);
            var output := Concat(chunks);
            && (length.None? ==> payload == output && |pieces| == |chunks|)
            && (length.Some? && length.value >= 0 ==>
                  && payload == (if length.value <= |output| then output[..length.value] else output)
                  && Enough(chunks, length.value, |pieces|))
  {
    var pieces := Pieces(length, 0, chunks);
    var ms := [Start(head)] + Bodies(pieces) + [Body([], false)];
    assert ms[1..] == Bodies(pieces) + [Body([], false)];
    PayloadOfBodies(pieces, [Body([], false)]);
    assert Payload([Body([], false)]) == [];
    if length.None? {
      UnclampedBody(0, chunks);
    } else if length.value >= 0 {
      ClampedBody(length.value, 0, chunks);
    }
  }

  lemma Grammar(head: Head, pieces: seq<Bytes>)
    ensures Going([Start(head)] + Bodies(pieces))
    ensures Complete([Start(head)] + Bodies(pieces) + [Body([], false)])
  {
    var going := [Start(head)] + Bodies(pieces);
    assert going[1..] == Bodies(pieces);
    assert (going + [Body([], false)])[..|going|] == going;
  }
}
