/** The line protocol: what one side prints and the other side parses, with the exact conditions under which the printed
    fields come back. */
module Wire {
  import opened Prelude

  // ----- The string operations the source uses

  /** Unicode White_Space, which `trim` removes at both ends. */
  predicate IsSpace(c: char) {
    || ('\t' <= c <= '\r') || c == ' ' || c == '\U{0085}' || c == '\U{00A0}' || c == '\U{1680}'
    || ('\U{2000}' <= c <= '\U{200A}') || c == '\U{2028}' || c == '\U{2029}' || c == '\U{202F}' || c == '\U{205F}'
    || c == '\U{3000}'
  }

  function TrimStart(s: string): (t: string)
    ensures |t| <= |s| && s[|s| - |t|..] == t
    ensures t == "" || !IsSpace(t[0])
  {
    if s == "" || !IsSpace(s[0]) then s else TrimStart(s[1..])
  }

  function TrimEnd(s: string): (t: string)
    ensures |t| <= |s| && s[..|t|] == t
    ensures t == "" || !IsSpace(t[|t| - 1])
  {
    if s == "" || !IsSpace(s[|s| - 1]) then s else TrimEnd(s[..|s| - 1])
  }

  function Trim(s: string): (t: string)
    ensures |t| <= |s|
    ensures t == "" || (!IsSpace(t[0]) && !IsSpace(t[|t| - 1]))
  {
    var t := TrimStart(TrimEnd(s));
    assert t != "" ==> t[|t| - 1] == TrimEnd(s)[|TrimEnd(s)| - 1];
    t
  }

  /** The position of the first space, or the length. */
  function SpaceAt(s: string): (i: nat)
    ensures i <= |s| && ' ' !in s[..i]
    ensures i < |s| ==> s[i] == ' '
  {
    if s == "" || s[0] == ' ' then 0
    else
      var i := 1 + SpaceAt(s[1..]);
      assert s[..i] == [s[0]] + s[1..][..i - 1];
      i
  }

  /** `splitn(n, ' ')`: at most `n` pieces, cut at the first spaces. */
  function SplitN(s: string, n: nat): (r: seq<string>)
    requires n >= 1
    ensures 1 <= |r| <= n
  {
    var i := SpaceAt(s);
    if n == 1 || i == |s| then [s] else [s[..i]] + SplitN(s[i + 1..], n - 1)
  }

  predicate StartsWith(s: string, p: string) {
    p <= s
  }

  function StripPrefix(s: string, p: string): Option<string> {
    if p <= s then Some(s[|p|..]) else None
  }

  /** `read_line`: up to and including the first newline. */
  function ReadLine(s: string): (l: string)
    ensures l <= s
  {
    if s == "" then "" else if s[0] == '\n' then "\n" else [s[0]] + ReadLine(s[1..])
  }

  // ----- Printing and parsing

  function PrintPublish(exchange: string, key: string, payload: string): string {
    "publish " + exchange + " " + key + " " + payload + "\n"
  }

  function PrintAck(id: string): string {
    "ack " + id + "\n"
  }

  function PrintAckReply(id: string): string {
    "ACK " + id + "\n"
  }

  function PrintFrame(id: string, json: string): string {
    "Message: " + id + " " + json + "\n"
  }

  /** A request is read as a whole buffer: its command word and the rest. */
  function ParseRequest(buffer: string): (string, string) {
    var parts := SplitN(Trim(buffer), 2);
    (parts[0], if |parts| > 1 then parts[1] else "")
  }

  function ParsePublish(buffer: string): Option<(string, string, string)> {
    var req := ParseRequest(buffer);
    if req.0 != "publish" then None
    else
      var args := SplitN(req.1, 3);
      if |args| >= 3 then Some((args[0], args[1], args[2])) else None
  }

  function ParseAck(buffer: string): Option<string> {
    var req := ParseRequest(buffer);
    if req.0 == "ack" && req.1 != "" then Some(req.1) else None
  }

  function ParseAckReply(line: string): Option<string> {
    StripPrefix(Trim(line), "ACK ")
  }

  /** The text after `Message:`. */
  function FrameBody(line: string): Option<string> {
    var message := Trim(line);
    if StartsWith(message, "Message:") then Some(Trim(message[|"Message:"|..])) else None
  }

  /** A non-empty id, a space and a payload. */
  function SplitId(body: string): Option<(string, string)> {
    var parts := SplitN(body, 2);
    if parts[0] == "" || |parts| < 2 then None else Some((parts[0], parts[1]))
  }

  function ParseFrame(line: string): Option<(string, string)> {
    match FrameBody(line)
    case None => None
    case Some(body) => SplitId(body)
  }

  // ----- Lemmas about the operations

  predicate EndsSolid(s: string) {
    s != "" && !IsSpace(s[|s| - 1])
  }

  predicate StartsSolid(s: string) {
    s != "" && !IsSpace(s[0])
  }

  lemma TrimNewline(s: string)
    requires StartsSolid(s)
    ensures TrimEnd(s + "\n") == TrimEnd(s)
    ensures EndsSolid(s) ==> Trim(s + "\n") == s
    ensures Trim(s + "\n") == TrimEnd(s) && StartsSolid(TrimEnd(s))
  {
    assert (s + "\n")[..|s|] == s;
    TrimEndKeepsFirst(s);
  }

  lemma {:induction false} TrimEndKeepsFirst(s: string)
    requires StartsSolid(s)
    ensures StartsSolid(TrimEnd(s)) && TrimEnd(s)[0] == s[0]
  {
    if IsSpace(s[|s| - 1]) {
      TrimEndKeepsFirst(s[..|s| - 1]);
    }
  }

  lemma {:induction false} SpaceAtIs(a: string, b: string)
    requires ' ' !in a
    ensures SpaceAt(a + " " + b) == |a|
  {
    if a == "" {
      assert (a + " " + b)[0] == ' ';
    } else {
      assert (a + " " + b)[1..] == a[1..] + " " + b;
      SpaceAtIs(a[1..], b);
    }
  }

  lemma SplitCons(a: string, b: string, n: nat)
    requires ' ' !in a && n >= 2
    ensures SplitN(a + " " + b, n) == [a] + SplitN(b, n - 1)
  {
    SpaceAtIs(a, b);
    assert (a + " " + b)[..|a|] == a && (a + " " + b)[|a| + 1..] == b;
  }

  lemma SplitInTwo(s: string)
    ensures SplitN(s, 2) == if SpaceAt(s) == |s| then [s] else [s[..SpaceAt(s)], s[SpaceAt(s) + 1..]]
  {
    var i := SpaceAt(s);
    if i < |s| {
      SplitAtSpace(s, 2);
      SplitOnce(s[i + 1..]);
    }
  }

  lemma SplitOnce(s: string)
    ensures SplitN(s, 1) == [s]
  {
  }

  lemma SplitAtSpace(s: string, n: nat)
    requires n >= 2 && SpaceAt(s) < |s|
    ensures SplitN(s, n) == [s[..SpaceAt(s)]] + SplitN(s[SpaceAt(s) + 1..], n - 1)
  {
  }

  /** Two or more pieces: the first has no space and the string is the pieces joined. */
  lemma SplitHead(s: string, n: nat)
    requires n >= 2 && |SplitN(s, n)| >= 2
    ensures var r := SplitN(s, n);
      ' ' !in r[0] && exists rest :: s == r[0] + " " + rest && r[1..] == SplitN(rest, n - 1)
  {
    var i := SpaceAt(s);
    assert s == s[..i] + " " + s[i + 1..];
    assert SplitN(s, n)[1..] == SplitN(s[i + 1..], n - 1);
  }

  lemma SplitWord(word: string, rest: string, n: nat)
    requires ' ' !in word && n >= 2
    ensures SplitN(word + " " + rest, n)[0] == word && |SplitN(word + " " + rest, n)| >= 2
    ensures n == 2 ==> SplitN(word + " " + rest, n)[1] == rest
  {
    SplitCons(word, rest, n);
  }

  /** Up to the printed newline nothing is cut exactly when the text before it has no newline. */
  lemma {:induction false} ReadLineIs(s: string, rest: string)
    ensures '\n' !in s ==> ReadLine(s + "\n" + rest) == s + "\n"
    ensures '\n' in s ==>
      var line := ReadLine(s + "\n" + rest); |line| <= |s| && line[|line| - 1] == '\n'
  {
    if s == "" {
      assert s + "\n" + rest == ['\n'] + rest;
    } else {
      assert (s + "\n" + rest)[1..] == s[1..] + "\n" + rest;
      ReadLineIs(s[1..], rest);
    }
  }

  // ----- Requests

  /** The text after the first space, if there is one. */
  function Tail(s: string): string {
    if SpaceAt(s) == |s| then "" else s[SpaceAt(s) + 1..]
  }

  lemma RequestRest(buffer: string)
    ensures ParseRequest(buffer).1 == Tail(Trim(buffer))
  {
    SplitInTwo(Trim(buffer));
  }

  lemma TailSolid(s: string)
    requires s == "" || EndsSolid(s)
    ensures Tail(s) == "" || EndsSolid(Tail(s))
  {
    var i := SpaceAt(s);
    if i + 1 < |s| {
      assert s[i + 1..][|s| - i - 2] == s[|s| - 1];
    }
  }

  /** Whatever was read, the text after the command word never ends in white space. */
  lemma RestEndsSolid(buffer: string)
    ensures var rest := ParseRequest(buffer).1; rest == "" || EndsSolid(rest)
  {
    RequestRest(buffer);
    TailSolid(Trim(buffer));
  }

  /** A request that prints as a word, a space and a text: it comes back exactly when the text does not end in white
      space. */
  lemma RequestIff(word: string, text: string)
    requires ' ' !in word && StartsSolid(word) && EndsSolid(word)
    ensures ParseRequest(word + " " + text + "\n") == (word, text) <==> text == "" || EndsSolid(text)
  {
    var s := word + " " + text;
    TrimNewline(s);
    RestEndsSolid(s + "\n");
    if text == "" {
      assert s == word + " " && s[..|word|] == word;
      assert TrimEnd(s) == TrimEnd(word) == word;
      assert SpaceAt(word) == |word|;
    } else if EndsSolid(text) {
      assert EndsSolid(s);
      SplitWord(word, text, 2);
    }
  }

  /** An acknowledgement request comes back exactly when its id is not empty and does not end in white space. */
  lemma AckRoundTripIff(id: string)
    ensures ParseAck(PrintAck(id)) == Some(id) <==> EndsSolid(id)
  {
    assert PrintAck(id) == "ack" + " " + id + "\n";
    RequestIff("ack", id);
  }

  lemma SplitInThree(a: string, b: string, c: string)
    requires ' ' !in a && ' ' !in b
    ensures SplitN(a + " " + (b + " " + c), 3) == [a, b, c]
  {
    SplitCons(a, b + " " + c, 3);
    SplitCons(b, c, 2);
  }

  lemma PublishText(exchange: string, key: string, payload: string, args: string)
    requires args == exchange + " " + (key + " " + payload)
    ensures PrintPublish(exchange, key, payload) == "publish" + " " + args + "\n"
    ensures EndsSolid(payload) ==> EndsSolid(args)
  {
    assert payload != "" ==> args[|args| - 1] == payload[|payload| - 1];
  }

  lemma PublishParses(exchange: string, key: string, payload: string)
    requires ' ' !in exchange && ' ' !in key && EndsSolid(payload)
    ensures ParsePublish(PrintPublish(exchange, key, payload)) == Some((exchange, key, payload))
  {
    var args := exchange + " " + (key + " " + payload);
    PublishText(exchange, key, payload, args);
    RequestIff("publish", args);
    SplitInThree(exchange, key, payload);
  }

  /** A publish comes back exactly when both names are free of spaces and the payload is not empty and does not end in
      white space; spaces inside the payload are kept. */
  lemma PublishRoundTripIff(exchange: string, key: string, payload: string)
    ensures ParsePublish(PrintPublish(exchange, key, payload)) == Some((exchange, key, payload))
       <==> ' ' !in exchange && ' ' !in key && EndsSolid(payload)
  {
    if ParsePublish(PrintPublish(exchange, key, payload)) == Some((exchange, key, payload)) {
      PublishParsed(exchange, key, payload, PrintPublish(exchange, key, payload));
    }
    if ' ' !in exchange && ' ' !in key && EndsSolid(payload) {
      PublishParses(exchange, key, payload);
    }
  }

  lemma ThreeParsed(text: string, a: string, b: string, c: string)
    requires SplitN(text, 3) == [a, b, c]
    ensures ' ' !in a && ' ' !in b && text == a + " " + (b + " " + c)
  {
    SplitHead(text, 3);
    var rest :| text == a + " " + rest && [b, c] == SplitN(rest, 2);
    SplitHead(rest, 2);
    var last :| rest == b + " " + last && [b, c][1..] == SplitN(last, 1);
    assert SplitN(last, 1) == [last];
  }

  lemma ArgsAre(text: string, a: string, b: string, c: string)
    requires |SplitN(text, 3)| >= 3 && SplitN(text, 3)[0] == a && SplitN(text, 3)[1] == b && SplitN(text, 3)[2] == c
    ensures ' ' !in a && ' ' !in b && text == a + " " + (b + " " + c)
  {
    assert SplitN(text, 3) == [a, b, c];
    ThreeParsed(text, a, b, c);
  }

  lemma LastSolid(a: string, b: string, c: string)
    requires EndsSolid(a + " " + (b + " " + c))
    ensures EndsSolid(c)
  {
    var text := a + " " + (b + " " + c);
    assert text[|text| - 1] == if c == "" then ' ' else c[|c| - 1];
  }

  lemma ArgsParsed(text: string, a: string, b: string, c: string)
    requires |SplitN(text, 3)| >= 3 && SplitN(text, 3)[0] == a && SplitN(text, 3)[1] == b && SplitN(text, 3)[2] == c
    requires text == "" || EndsSolid(text)
    ensures ' ' !in a && ' ' !in b && EndsSolid(c)
  {
    ArgsAre(text, a, b, c);
    LastSolid(a, b, c);
  }

  /** What a successful parse says about the parsed fields. */
  lemma PublishParsed(exchange: string, key: string, payload: string, buffer: string)
    requires ParsePublish(buffer) == Some((exchange, key, payload))
    ensures ' ' !in exchange && ' ' !in key && EndsSolid(payload)
  {
    RestEndsSolid(buffer);
    ArgsParsed(ParseRequest(buffer).1, exchange, key, payload);
  }

  // ----- Replies and frames, read line by line

  lemma TrimEndShorter(s: string)
    requires s != "" && IsSpace(s[|s| - 1])
    ensures |TrimEnd(s)| < |s| && |Trim(s)| < |s|
  {
  }

  lemma AckReplyParses(id: string)
    requires EndsSolid(id)
    ensures ParseAckReply("ACK " + id + "\n") == Some(id)
  {
    var s := "ACK " + id;
    TrimNewline(s);
    assert s[4..] == id;
  }

  lemma AckReplyParsed(id: string, line: string)
    requires ParseAckReply(line) == Some(id)
    ensures EndsSolid(id) && |Trim(line)| == 4 + |id|
  {
    var t := Trim(line);
    assert t == "ACK " + id;
    assert t[|t| - 1] == if id == "" then ' ' else id[|id| - 1];
  }

  /** The server's reply comes back exactly when the id is not empty, does not end in white space and has no newline. */
  lemma AckReplyRoundTripIff(id: string, rest: string)
    ensures ParseAckReply(ReadLine(PrintAckReply(id) + rest)) == Some(id) <==> EndsSolid(id) && '\n' !in id
  {
    var s := "ACK " + id;
    assert PrintAckReply(id) + rest == s + "\n" + rest;
    ReadLineIs(s, rest);
    assert '\n' in s <==> '\n' in id by {
      assert '\n' !in "ACK ";
    }
    if '\n' in id {
      AckReplyCut(id, ReadLine(s + "\n" + rest));
    } else if EndsSolid(id) {
      AckReplyParses(id);
    } else {
      AckReplyNotSolid(id, s + "\n");
    }
  }

  lemma AckReplyCut(id: string, line: string)
    requires line != "" && |line| <= 4 + |id| && line[|line| - 1] == '\n'
    ensures ParseAckReply(line) != Some(id)
  {
    TrimEndShorter(line);
    if ParseAckReply(line) == Some(id) {
      AckReplyParsed(id, line);
    }
  }

  lemma AckReplyNotSolid(id: string, line: string)
    requires !EndsSolid(id)
    ensures ParseAckReply(line) != Some(id)
  {
    if ParseAckReply(line) == Some(id) {
      AckReplyParsed(id, line);
    }
  }

  predicate FrameOk(id: string, json: string) {
    StartsSolid(id) && ' ' !in id && '\n' !in id && EndsSolid(json) && '\n' !in json
  }

  lemma TrimOneSpace(body: string)
    requires StartsSolid(body) && EndsSolid(body)
    ensures Trim(" " + body) == body
  {
    var s := " " + body;
    assert s[|s| - 1] == body[|body| - 1];
    assert TrimEnd(s) == s;
    assert s[1..] == body;
    assert TrimStart(body) == body;
    assert TrimStart(s) == TrimStart(s[1..]);
  }

  lemma FrameText(id: string, json: string, body: string)
    requires body == id + " " + json
    ensures PrintFrame(id, json) == "Message:" + (" " + body) + "\n"
    ensures StartsSolid(id) ==> StartsSolid(body)
    ensures EndsSolid(json) ==> EndsSolid(body)
    ensures '\n' in "Message:" + (" " + body) <==> '\n' in id || '\n' in json
  {
    assert id != "" ==> body[0] == id[0];
    assert json != "" ==> body[|body| - 1] == json[|json| - 1];
  }

  lemma FrameParses(body: string)
    requires StartsSolid(body) && EndsSolid(body)
    ensures FrameBody("Message:" + (" " + body) + "\n") == Some(body)
  {
    var s := "Message:" + (" " + body);
    assert s[|s| - 1] == body[|body| - 1] && s[0] == 'M';
    TrimNewline(s);
    assert s[|"Message:"|..] == " " + body;
    TrimOneSpace(body);
  }

  lemma SplitSolid(body: string, a: string, b: string)
    requires StartsSolid(body) && EndsSolid(body) && SplitId(body) == Some((a, b))
    ensures body == a + " " + b && StartsSolid(a) && ' ' !in a && EndsSolid(b)
  {
    SplitInTwo(body);
    var i := SpaceAt(body);
    assert body == body[..i] + " " + body[i + 1..];
    assert body[|body| - 1] == if b == "" then ' ' else b[|b| - 1];
  }

  lemma SplitOfEmpty()
    ensures SplitId("") == None
  {
  }

  /** What a successful parse says about the parsed fields. */
  lemma FrameParsed(id: string, json: string, line: string)
    requires ParseFrame(line) == Some((id, json))
    ensures StartsSolid(id) && ' ' !in id && EndsSolid(json)
    ensures FrameBody(line) == Some(id + " " + json)
  {
    SplitOfEmpty();
    SplitSolid(FrameBody(line).value, id, json);
  }

  lemma TrimStartShorter(s: string)
    requires s != "" && s[0] == ' '
    ensures |Trim(s)| < |s|
  {
    var t := TrimEnd(s);
    assert t != "" ==> t[0] == ' ';
  }

  /** A frame with a newline inside is cut before its end, so what is parsed is shorter. */
  lemma FrameCut(body: string, line: string)
    requires line <= "Message:" + (" " + body) && line != "" && line[|line| - 1] == '\n'
    ensures FrameBody(line) != Some(body)
  {
    var t, whole := Trim(line), "Message:" + (" " + body);
    assert line[0] == whole[0] == 'M';
    TrimEndShorter(line);
    TrimNoStart(line);
    NewlineInBody(body, |line| - 1);
    if |t| > 8 {
      assert t[8] == line[8] == whole[8] == ' ';
      TrimStartShorter(t[8..]);
    }
  }

  lemma NewlineInBody(body: string, i: nat)
    requires i < 9 + |body|
    ensures i < 9 ==> ("Message:" + (" " + body))[i] != '\n'
  {
    if i < 8 {
      assert ("Message:" + (" " + body))[i] == "Message:"[i];
    }
  }

  lemma TrimNoStart(line: string)
    requires line != "" && line[0] == 'M'
    ensures Trim(line) <= line
  {
    TrimEndKeepsFirst(line);
  }

  lemma FrameComesBack(id: string, json: string, rest: string)
    requires FrameOk(id, json)
    ensures ParseFrame(ReadLine(PrintFrame(id, json) + rest)) == Some((id, json))
  {
    var body := id + " " + json;
    FrameText(id, json, body);
    ReadLineIs("Message:" + (" " + body), rest);
    FrameParses(body);
    SplitWord(id, json, 2);
    assert SplitId(body) == Some((id, json));
  }

  lemma NewlineCuts(body: string, rest: string)
    requires '\n' in "Message:" + (" " + body)
    ensures FrameBody(ReadLine("Message:" + (" " + body) + "\n" + rest)) != Some(body)
  {
    var s := "Message:" + (" " + body);
    ReadLineIs(s, rest);
    var line := ReadLine(s + "\n" + rest);
    assert line == (s + "\n" + rest)[..|line|] == s[..|line|];
    FrameCut(body, line);
  }

  lemma FrameOnlyIfOk(id: string, json: string, rest: string)
    requires ParseFrame(ReadLine(PrintFrame(id, json) + rest)) == Some((id, json))
    ensures FrameOk(id, json)
  {
    var body := id + " " + json;
    FrameText(id, json, body);
    FrameParsed(id, json, ReadLine(PrintFrame(id, json) + rest));
    if '\n' in "Message:" + (" " + body) {
      NewlineCuts(body, rest);
    }
  }

  /** A delivered frame comes back exactly when the id is not empty, has no space or newline and does not start with
      white space, and the payload is not empty, has no newline and does not end in white space. */
  lemma FrameRoundTripIff(id: string, json: string, rest: string)
    ensures ParseFrame(ReadLine(PrintFrame(id, json) + rest)) == Some((id, json)) <==> FrameOk(id, json)
  {
    if FrameOk(id, json) {
      FrameComesBack(id, json, rest);
    }
    if ParseFrame(ReadLine(PrintFrame(id, json) + rest)) == Some((id, json)) {
      FrameOnlyIfOk(id, json, rest);
    }
  }

  // ----- What is parsed at all

  lemma {:induction false} TrimStartIs(s: string)
    ensures forall k :: 0 <= k < |s| - |TrimStart(s)| ==> IsSpace(s[k])
  {
    if s == "" || !IsSpace(s[0]) {
    } else {
      TrimStartIs(s[1..]);
      forall k | 0 < k < |s| - |TrimStart(s)| ensures IsSpace(s[k]) {
        assert s[k] == s[1..][k - 1];
      }
    }
  }

  lemma {:induction false} TrimEndIs(s: string)
    ensures forall k :: |TrimEnd(s)| <= k < |s| ==> IsSpace(s[k])
  {
    if s == "" || !IsSpace(s[|s| - 1]) {
    } else {
      TrimEndIs(s[..|s| - 1]);
    }
  }

  lemma Middle(s: string, t: string, u: string)
    requires |u| <= |t| <= |s| && s[..|t|] == t && t[|t| - |u|..] == u
    ensures s[|t| - |u|..|t|] == u
  {
  }

  /** Trimming cuts off white space at both ends and nothing else. */
  lemma TrimIs(s: string) returns (i: nat, j: nat)
    ensures i <= j <= |s| && Trim(s) == s[i..j]
    ensures forall k :: 0 <= k < i || j <= k < |s| ==> IsSpace(s[k])
  {
    var t := TrimEnd(s);
    TrimEndIs(s);
    TrimStartIs(t);
    i, j := |t| - |TrimStart(t)|, |t|;
    Middle(s, t, TrimStart(t));
    forall k | 0 <= k < i ensures IsSpace(s[k]) {
      assert s[k] == t[k];
    }
  }

  lemma SplitParsed(s: string, word: string, text: string)
    requires SplitN(s, 2) == [word, text]
    ensures s == word + " " + text
  {
    SplitInTwo(s);
    var i := SpaceAt(s);
    assert s == s[..i] + " " + s[i + 1..];
  }

  lemma TwoParts(s: string, word: string, text: string)
    requires ' ' !in word && s == word + " " + text
    ensures SplitN(s, 2) == [word, text]
  {
    SplitCons(word, text, 2);
    assert SplitN(text, 1) == [text];
  }

  lemma TwoOf(parts: seq<string>, word: string, text: string)
    requires 1 <= |parts| <= 2 && text != ""
    ensures (parts[0], if |parts| > 1 then parts[1] else "") == (word, text) <==> parts == [word, text]
  {
  }

  lemma RequestParsed(buffer: string, word: string, text: string)
    requires ' ' !in word && text != ""
    ensures ParseRequest(buffer) == (word, text) <==> Trim(buffer) == word + " " + text
  {
    var s := Trim(buffer);
    TwoOf(SplitN(s, 2), word, text);
    if SplitN(s, 2) == [word, text] {
      SplitParsed(s, word, text);
    } else if s == word + " " + text {
      TwoParts(s, word, text);
    }
  }

  /** A buffer is an acknowledgement of `id` exactly if, trimmed, it is the word, a space and a non-empty id. */
  lemma AckParsedIff(buffer: string, id: string)
    ensures ParseAck(buffer) == Some(id) <==> id != "" && Trim(buffer) == "ack" + " " + id
  {
    if id != "" {
      RequestParsed(buffer, "ack", id);
    }
  }

  lemma ArgsIff(text: string, a: string, b: string, c: string)
    ensures |SplitN(text, 3)| >= 3 && SplitN(text, 3)[0] == a && SplitN(text, 3)[1] == b && SplitN(text, 3)[2] == c <==>
      ' ' !in a && ' ' !in b && text == a + " " + (b + " " + c)
  {
    if ' ' !in a && ' ' !in b && text == a + " " + (b + " " + c) {
      SplitInThree(a, b, c);
    } else if |SplitN(text, 3)| >= 3 && SplitN(text, 3)[0] == a && SplitN(text, 3)[1] == b && SplitN(text, 3)[2] == c {
      ArgsAre(text, a, b, c);
    }
  }

  /** A buffer is a publish exactly if, trimmed, it is the word and the three fields, of which the first two have no
      space, each after one space. */
  lemma PublishParsedIff(buffer: string, exchange: string, key: string, payload: string)
    ensures ParsePublish(buffer) == Some((exchange, key, payload)) <==>
      && ' ' !in exchange && ' ' !in key
      && Trim(buffer) == "publish" + " " + (exchange + " " + (key + " " + payload))
  {
    var args := exchange + " " + (key + " " + payload);
    RequestParsed(buffer, "publish", args);
    ArgsIff(ParseRequest(buffer).1, exchange, key, payload);
  }

  lemma AfterPrefix(s: string, p: string, rest: string)
    ensures p <= s && s[|p|..] == rest <==> s == p + rest
  {
  }

  lemma SplitIdIff(body: string, id: string, json: string)
    ensures SplitId(body) == Some((id, json)) <==> id != "" && ' ' !in id && body == id + " " + json
  {
    if SplitId(body) == Some((id, json)) {
      assert SplitN(body, 2) == [id, json];
      SplitParsed(body, id, json);
      SplitHead(body, 2);
    } else if id != "" && ' ' !in id && body == id + " " + json {
      TwoParts(body, id, json);
    }
  }

  lemma FrameIs(line: string, rest: string, id: string, json: string)
    requires Trim(line) == "Message:" + rest
    ensures ParseFrame(line) == Some((id, json)) <==> id != "" && ' ' !in id && Trim(rest) == id + " " + json
  {
    AfterPrefix(Trim(line), "Message:", rest);
    SplitIdIff(Trim(rest), id, json);
  }

  /** A line is a frame exactly if, trimmed, it starts with the marker and the rest, trimmed, is a non-empty id without
      a space, a space and the payload. */
  lemma FrameParsedIff(line: string, id: string, json: string)
    ensures ParseFrame(line) == Some((id, json)) <==>
      && id != "" && ' ' !in id
      && exists rest :: Trim(line) == "Message:" + rest && Trim(rest) == id + " " + json
  {
    if ParseFrame(line) == Some((id, json)) {
      var rest := Trim(line)[|"Message:"|..];
      AfterPrefix(Trim(line), "Message:", rest);
      FrameIs(line, rest, id, json);
    } else if rest :| Trim(line) == "Message:" + rest && Trim(rest) == id + " " + json {
      FrameIs(line, rest, id, json);
    }
  }
}
