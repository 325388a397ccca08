/**
 The text that travels between `BaseClient` and `SessionClient`: a request is a context, one
 space and a call specification; a reply is "O" or "E", one space and a text. Both ends copy the
 bytes through fixed buffers, which is where a message can be damaged.
*/
module Wire {
  import opened Wrappers

  const SEPARATOR: char := ' '
  const NUL: char := '\0'
  // char buffer[256-25] in HandleSessionClient
  const REQUEST_BUFFER: nat := 231
  // KBufSize in BaseClient
  const REPLY_BUFFER: nat := 512

  datatype Reply = Reply(ok: bool, text: string)

  /** What the server makes of a message; `spec` is absent when there is no separator. */
  datatype Parsed = MissingContext | Request(ctx: string, spec: Option<string>)

  /** The first position of `c` in `s`, or `|s|` (the source's npos) when there is none. */
  function Find(s: string, c: char): (r: nat)
    ensures r <= |s| && forall i | 0 <= i < r :: s[i] != c
    ensures r < |s| ==> s[r] == c
  {
    if s == [] || s[0] == c then 0 else 1 + Find(s[1..], c)
  }

  function CString(s: string): string {
    s[..Find(s, NUL)]
  }

  lemma CStringWhole(s: string)
    ensures CString(s) == s <==> NUL !in s
  {
  }

  /** What comes before the first terminator is all there is. */
  lemma CStringCut(s: string, rest: string)
    requires NUL !in s
    ensures CString(s + [NUL] + rest) == s
  {
    var t := s + [NUL] + rest;
    assert t[|s|] == NUL && forall i | 0 <= i < |s| :: t[i] == s[i];
    assert t[..|s|] == s;
  }

  function Framed(ctx: string, args: string): string {
    ctx + [SEPARATOR] + args
  }

  function Parse(msg: string): Parsed {
    var sep := Find(msg, SEPARATOR);
    if sep == 0 && msg != "" then MissingContext
    else Request(msg[..sep], if sep == |msg| then None else Some(msg[sep + 1..]))
  }

  /** One framed request is read back as sent exactly for the contexts the protocol allows. */
  lemma ParseFramed(ctx: string, args: string)
    ensures Parse(Framed(ctx, args)) == Request(ctx, Some(args)) <==> ctx != "" && SEPARATOR !in ctx
  {
    var msg := Framed(ctx, args);
    if SEPARATOR !in ctx {
      assert msg[..|ctx|] == ctx && msg[|ctx|] == SEPARATOR;
      assert msg[|ctx| + 1..] == args;
    }
  }

  /** The context the server reads when a client uses `text` as one: its first word. */
  function FirstWord(text: string): (w: string)
    ensures SEPARATOR !in w
  {
    text[..Find(text, SEPARATOR)]
  }

  /** A context with spaces is cut at the first one, the rest joins the call specification. */
  lemma ParseFramedText(text: string, args: string)
    ensures FirstWord(text) == "" ==> Parse(Framed(text, args)) == MissingContext
    ensures FirstWord(text) != "" ==>
      var rest := if SEPARATOR in text then text[|FirstWord(text)| + 1..] + [SEPARATOR] + args else args;
      Parse(Framed(text, args)) == Request(FirstWord(text), Some(rest))
  {
    var msg, k := Framed(text, args), Find(text, SEPARATOR);
    assert msg[..k] == text[..k];
    assert msg[k] == SEPARATOR;
    if k > 0 {
      assert Parse(msg) == Request(FirstWord(text), Some(msg[k + 1..]));
      assert msg[k + 1..] == if SEPARATOR in text then text[k + 1..] + [SEPARATOR] + args else args;
    }
  }

  /**
   The message the server works on after one recv of `sent` into its zeroed buffer and the "%s"
   copy; None when no terminator is left in the buffer, so that the copy runs past its end.
  */
  function Received(sent: string): Option<string> {
    var got := if |sent| <= REQUEST_BUFFER then sent else sent[..REQUEST_BUFFER];
    if |got| == REQUEST_BUFFER && NUL !in got then None else Some(CString(got))
  }

  lemma ReceivedWhole(sent: string)
    ensures Received(sent) == Some(sent) <==> NUL !in sent && |sent| <= 230
  {
    CStringWhole(sent);
    if |sent| >= REQUEST_BUFFER {
      var got := sent[..REQUEST_BUFFER];
      assert |sent| == REQUEST_BUFFER ==> got == sent;
      CStringWhole(got);
    }
  }

  function Encoded(r: Reply): (bytes: string)
    ensures 2 <= |bytes|
  {
    CString((if r.ok then "O" else "E") + " " + r.text)
  }

  /** On the wire: the code, one space, and the text. */
  lemma EncodedIs(r: Reply)
    requires NUL !in r.text
    ensures |Encoded(r)| == |r.text| + 2 && Encoded(r)[0] == (if r.ok then 'O' else 'E') && Encoded(r)[1] == ' '
    ensures Encoded(r)[2..] == r.text
  {
    CStringWhole((if r.ok then "O" else "E") + " " + r.text);
  }

  /** `BaseClient::Request` on the bytes of one recv; None when `assign` throws on a short read. */
  function Decoded(bytes: string): Option<Reply> {
    var got := if |bytes| <= REPLY_BUFFER then bytes else bytes[..REPLY_BUFFER];
    if |got| < 2 then None else Some(Reply(got[0] != 'E', got[2..]))
  }

  /** A reply survives its journey exactly when it is NUL-free and fits the client's buffer. */
  lemma ReplyTransparent(r: Reply)
    ensures Decoded(Encoded(r)) == Some(r) <==> NUL !in r.text && |r.text| <= 510
    ensures Decoded(Encoded(r)).Some? && Decoded(Encoded(r)).value.ok == r.ok
  {
    var full := (if r.ok then "O" else "E") + " " + r.text;
    assert full[2..] == r.text && full[1] == ' ';
    CStringWhole(full);
    if NUL !in r.text {
      assert NUL !in full;
      if |full| > REPLY_BUFFER {
        assert |full[..REPLY_BUFFER][2..]| < |r.text|;
      }
    } else {
      assert NUL in full;
      assert |Encoded(r)| < |full|;
    }
  }

  /** The receiving half of the handler loop: clear the buffer, recv, copy up to the terminator. */
  method ReceiveMessage(sent: string) returns (msg: Option<string>)
    ensures msg == Received(sent)
    ensures msg.None? <==> |sent| >= 231 && NUL !in sent[..231]
    ensures msg.Some? ==> NUL !in msg.value && msg.value <= sent
    ensures msg.Some? && |msg.value| < |sent| ==> sent[|msg.value|] == NUL
  {
    var buffer := new char[REQUEST_BUFFER](_ => NUL);
    var n := if |sent| < REQUEST_BUFFER then |sent| else REQUEST_BUFFER;
    for i := 0 to n
      invariant buffer[..i] == sent[..i]
      invariant forall j | i <= j < REQUEST_BUFFER :: buffer[j] == NUL
    {
      buffer[i] := sent[i];
      assert buffer[..i + 1] == buffer[..i] + [sent[i]];
    }
    ghost var got := sent[..n];
    assert |sent| <= REQUEST_BUFFER ==> got == sent;
    var k := 0;
    while k < REQUEST_BUFFER && buffer[k] != NUL
      invariant 0 <= k <= REQUEST_BUFFER
      invariant forall j | 0 <= j < k :: buffer[j] != NUL
    {
      k := k + 1;
    }
    assert n < REQUEST_BUFFER ==> buffer[n] == NUL;
    assert buffer[..k] == got[..k];
    assert forall j | 0 <= j < k :: got[..k][j] != NUL;
    assert k < n ==> got[k] == buffer[..n][k];
    if k == REQUEST_BUFFER {
      assert got[..k] == got;
      return None;
    }
    if n == REQUEST_BUFFER {
      assert got[k] == NUL;
    }
    msg := Some(buffer[..k]);
  }

  /** The receiving half of `BaseClient::Request`. */
  method ReadReply(bytes: string) returns (r: Option<Reply>)
    ensures r == Decoded(bytes)
    ensures r.None? <==> |bytes| < 2
    ensures r.Some? ==> (r.value.ok <==> bytes[0] != 'E')
    ensures r.Some? ==> r.value.text == bytes[2..if |bytes| <= 512 then |bytes| else 512]
  {
    var buffer := new char[REPLY_BUFFER](_ => NUL);
    var n := if |bytes| < REPLY_BUFFER then |bytes| else REPLY_BUFFER;
    for i := 0 to n
      invariant buffer[..i] == bytes[..i]
    {
      buffer[i] := bytes[i];
      assert buffer[..i + 1] == buffer[..i] + [bytes[i]];
    }
    assert |bytes| <= REPLY_BUFFER ==> bytes[..n] == bytes;
    if n < 2 {
      return None;
    }
    assert buffer[0] == buffer[..n][0];
    r := Some(Reply(buffer[0] != 'E', buffer[2..n]));
    assert buffer[2..n] == buffer[..n][2..];
  }

  /**
   The sending half: `BaseClient::Request` appends the separator and the arguments. What it makes is
   read as sent, once it has arrived whole, exactly for the contexts the protocol allows.
  */
  method FrameRequest(ctx: string, args: string) returns (req: string)
    ensures req == Framed(ctx, args)
    ensures Parse(req) == Request(ctx, Some(args)) <==> ctx != "" && SEPARATOR !in ctx
  {
    ParseFramed(ctx, args);
    req := ctx;
    req := req + [SEPARATOR];
    req := req + args;
  }
}
