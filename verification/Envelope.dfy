/**
  The JSON envelopes of the invoke endpoint, internal/httpapi/invoke.go: how a response body is put in
  (`writeInvokeResponse`) and how a request body is taken out (`invokeFunction`).
*/
module Envelope {
  import opened Wrappers
  import opened Bytes
  import opened Utf8
  import opened Strings
  import Base64

  /** Both proxy.MaxRequestBody and proxy.MaxResponseBody. */
  const MAX_BODY: nat := 0x10_0000

  /** What the JSON decoder may read besides the body. */
  const JSON_SLACK: nat := 4096

  // ---------- writing a response ----------

  /** Content types shown as text; `ct` is in lower case. */
  predicate IsTextish(ct: string) {
    HasPrefix(ct, "text/") ||
    (HasPrefix(ct, "application/") &&
     (Contains(ct, "json") || Contains(ct, "xml") || Contains(ct, "yaml") || Contains(ct, "javascript") || Contains(ct, "html")))
  }

  /** The words that make an application type one of text. */
  const TEXT_WORDS := ["json", "xml", "yaml", "javascript", "html"]

  lemma WordsBegin(w: string)
    requires w in TEXT_WORDS
    ensures w != "" && '/' !in w && w[0] in ['j', 'x', 'y', 'h']
  {
  }

  lemma PrefixHasNone(c: char)
    requires c in ['j', 'x', 'y', 'h']
    ensures c !in "application/"
  {
  }

  lemma PrefixSplits(s: string, p: string)
    ensures HasPrefix(s, p) <==> exists a :: s == p + a
  {
    if HasPrefix(s, p) { assert s == p + s[|p|..]; }
    forall a | s == p + a
      ensures HasPrefix(s, p)
    {
      assert (p + a)[..|p|] == p;
    }
  }

  /** The word stands behind the prefix, not in it. */
  lemma WordBehind(p: string, rest: string, w: string)
    requires w != "" && w[0] !in p
    ensures Contains(p + rest, w) <==> exists a, b :: rest == a + w + b
  {
    var s := p + rest;
    var k := Find(s, w);
    if k.Some? {
      assert s[k.value] == s[k.value..k.value + |w|][0] == w[0];
      forall i | 0 <= i < |p|
        ensures s[i] != w[0]
      {
        assert s[i] == p[i] && p[i] in p;
      }
      var i := k.value - |p|;
      assert rest[i..i + |w|] == s[k.value..k.value + |w|];
      assert rest == rest[..i] + w + rest[i + |w|..];
    }
    forall a, b | rest == a + w + b
      ensures Contains(s, w)
    {
      assert s[|p| + |a|..|p| + |a| + |w|] == w;
      assert OccursAt(s, w, |p| + |a|);
    }
  }

  /** An application type of text: one of the words stands somewhere in it. */
  ghost predicate ApplicationText(ct: string) {
    exists a, w, b :: w in TEXT_WORDS && ct == "application/" + (a + w + b)
  }

  lemma ApplicationTextIff(rest: string)
    ensures ApplicationText("application/" + rest) <==> exists w :: w in TEXT_WORDS && Contains("application/" + rest, w)
  {
    forall w | w in TEXT_WORDS
      ensures Contains("application/" + rest, w) <==> exists a, b :: rest == a + w + b
    {
      WordsBegin(w);
      PrefixHasNone(w[0]);
      WordBehind("application/", rest, w);
    }
    if w :| w in TEXT_WORDS && Contains("application/" + rest, w) {
      var a, b :| rest == a + w + b;
      assert "application/" + rest == "application/" + (a + w + b);
    }
    if ApplicationText("application/" + rest) {
      var a, w, b :| w in TEXT_WORDS && "application/" + rest == "application/" + (a + w + b);
      assert rest == ("application/" + rest)[12..] == a + w + b;
    }
  }

  lemma HasWordIff(ct: string)
    ensures (exists w :: w in TEXT_WORDS && Contains(ct, w)) <==>
      Contains(ct, "json") || Contains(ct, "xml") || Contains(ct, "yaml") || Contains(ct, "javascript") || Contains(ct, "html")
  {
    assert "json" in TEXT_WORDS && "xml" in TEXT_WORDS && "yaml" in TEXT_WORDS && "javascript" in TEXT_WORDS && "html" in TEXT_WORDS;
  }

  /** Text is what is of a type text/…, and what is of a type application/… with one of five words in it; nothing else. */
  lemma TextishIff(ct: string)
    ensures IsTextish(ct) <==> (exists a :: ct == "text/" + a) || ApplicationText(ct)
  {
    PrefixSplits(ct, "text/");
    PrefixSplits(ct, "application/");
    if HasPrefix(ct, "application/") {
      var rest :| ct == "application/" + rest;
      ApplicationTextIff(rest);
      HasWordIff(ct);
    }
  }

  /** The two body members of the envelope; `text` is a Go string, any octets. */
  datatype Envelope = Envelope(text: seq<byte>, isBase64: bool)

  function Base64Text(body: seq<byte>): seq<byte>
  {
    EncodedIsAscii(body);
    Base64.Codes(Base64.Encode(body))
  }

  /** The body `invokeWorker` keeps of a response, and whether it cut it. */
  method Capture(body: seq<byte>) returns (kept: seq<byte>, truncated: bool)
    ensures kept <= body && |kept| <= MAX_BODY
    ensures truncated <==> kept != body
    ensures truncated ==> |kept| == MAX_BODY
  {
    var n := if |body| <= MAX_BODY + 1 then |body| else MAX_BODY + 1;
    kept := body[..n];
    truncated := n > MAX_BODY;
    if truncated {
      kept := kept[..MAX_BODY];
    }
  }

  /** The flag is set for what is not text or not said to be text, and the member is then the base64 text. */
  ghost predicate Written(body: seq<byte>, ct: string, e: Envelope) {
    e.text == (if e.isBase64 then Base64Text(body) else body) &&
    (!e.isBase64 <==> Valid(body) && (ct == "" || IsTextish(ct)))
  }

  method WriteResponse(body: seq<byte>, ct: string) returns (e: Envelope)
    ensures Written(body, ct, e)
  {
    var text, isBase64 := body, false;
    if !Valid(body) || (ct != "" && !IsTextish(ct)) {
      text := Base64Text(body);
      isBase64 := true;
    }
    return Envelope(text, isBase64);
  }

  // ---------- JSON ----------

  /** JSON carries scalar values: a Go string that is not UTF-8 is altered, in a way left open here. */
  function Carried(text: seq<byte>, mangle: seq<byte> -> seq<scalar>): seq<scalar> {
    if Valid(text) then Decode(text) else mangle(text)
  }

  // ---------- reading a request ----------

  datatype ReadError = InvalidJson | InvalidBase64 | TooLarge

  predicate Newline(c: char) {
    c == '\r' || c == '\n'
  }

  /** Go's StdEncoding: padding is required, line breaks are skipped. */
  function DecodeString(s: string): Option<seq<byte>> {
    var clean := Without(Newline, s);
    if |clean| % 4 != 0 then None else Base64.CleanForgiving(clean)
  }

  /** The body taken out of an envelope whose JSON is `overhead` octets longer than the text in it. */
  function ReadRequest(text: seq<scalar>, isBase64: bool, overhead: nat): Result<seq<byte>, ReadError> {
    var octets := Encode(text);
    if |octets| + overhead > MAX_BODY + JSON_SLACK then Err(InvalidJson)
    else if octets == [] then Ok([])
    else
      var body := if isBase64 then DecodeString(Base64.FromCodes(octets)) else Some(octets);
      if body.None? then Err(InvalidBase64)
      else if |body.value| > MAX_BODY then Err(TooLarge)
      else Ok(body.value)
  }

  // ---------- base64 text is plain ASCII ----------

  predicate Ascii(s: seq<byte>) {
    forall i :: 0 <= i < |s| ==> s[i] < 0x80
  }

  lemma {:induction false} AsciiIsValid(s: seq<byte>)
    requires Ascii(s)
    ensures Valid(s)
  {
    if s != [] {
      AsciiIsValid(s[1..]);
    }
  }

  lemma EncodedIsAscii(body: seq<byte>)
    ensures Base64.Latin1(Base64.Encode(body)) && Ascii(Base64.Codes(Base64.Encode(body)))
  {
    Base64.FormsAreStandard(body);
    var s := Base64.Encode(body);
    forall i | 0 <= i < |s|
      ensures s[i] as int < 0x80
    {
      assert Base64.IsSymbol(s[i]) || s[i] == '=';
    }
  }

  lemma EncodedLength(body: seq<byte>)
    ensures |Base64.Encode(body)| == (|body| + 2) / 3 * 4
  {
    Base64Count(body);
  }

  lemma {:induction false} Base64Count(body: seq<byte>)
    ensures |Base64.Sextets(body)| + Base64.PaddingFor(body) == (|body| + 2) / 3 * 4
  {
    if |body| >= 3 {
      Base64Count(body[3..]);
      assert Base64.PaddingFor(body[3..]) == Base64.PaddingFor(body);
      assert (|body[3..]| + 2) / 3 == (|body| + 2) / 3 - 1;
    }
  }

  lemma EncodedIsOneLine(body: seq<byte>)
    ensures Without(Newline, Base64.Encode(body)) == Base64.Encode(body)
  {
    var s := Base64.Encode(body);
    Base64.FormsAreStandard(body);
    forall i | 0 <= i < |s|
      ensures !Newline(s[i])
    {
      assert Base64.IsSymbol(s[i]) || s[i] == '=';
    }
    NothingToDrop(Newline, s);
  }

  lemma DecodeStringInverts(body: seq<byte>)
    ensures DecodeString(Base64.Encode(body)) == Some(body)
  {
    EncodedIsOneLine(body);
    Base64.EncodedReads(body);
  }

  /** A string passes through JSON exactly when it is UTF-8, whatever is made of the others. */
  lemma PlainSurvivesIff(text: seq<byte>, mangle: seq<byte> -> seq<scalar>)
    ensures Encode(Carried(text, mangle)) == text <==> Valid(text)
  {
    if Valid(text) {
      DecodeThenEncode(text);
    } else {
      EncodeThenDecode(mangle(text));
    }
  }

  lemma Base64Survives(body: seq<byte>, mangle: seq<byte> -> seq<scalar>)
    ensures Encode(Carried(Base64Text(body), mangle)) == Base64Text(body)
  {
    EncodedIsAscii(body);
    AsciiIsValid(Base64Text(body));
    PlainSurvivesIff(Base64Text(body), mangle);
  }

  lemma CodesThere(s: string)
    requires Base64.Latin1(s)
    ensures Base64.FromCodes(Base64.Codes(s)) == s
  {
  }

  // ---------- main results ----------

  /**
    A body sent as base64 is taken out unchanged exactly when its base64 text and the rest of the JSON fit in what
    is read; so no body of more than 789,504 octets can be sent this way, although bodies of 1 MiB are promised.
  */
  lemma Base64RequestIff(body: seq<byte>, mangle: seq<byte> -> seq<scalar>, overhead: nat)
    ensures var r := ReadRequest(Carried(Base64Text(body), mangle), true, overhead);
      r == if (|body| + 2) / 3 * 4 + overhead <= MAX_BODY + JSON_SLACK then Ok(body) else Err(InvalidJson)
    ensures |body| > 789504 ==> ReadRequest(Carried(Base64Text(body), mangle), true, overhead) == Err(InvalidJson)
  {
    Base64Survives(body, mangle);
    EncodedIsAscii(body);
    EncodedLength(body);
    DecodeStringInverts(body);
    CodesThere(Base64.Encode(body));
  }

  /** A body sent as text is taken out unchanged exactly when it is UTF-8 and small enough. */
  lemma PlainRequestIff(body: seq<byte>, mangle: seq<byte> -> seq<scalar>, overhead: nat)
    requires Valid(body)
    ensures var r := ReadRequest(Carried(body, mangle), false, overhead);
      r == if |body| + overhead > MAX_BODY + JSON_SLACK then Err(InvalidJson)
           else if |body| > MAX_BODY then Err(TooLarge) else Ok(body)
  {
    PlainSurvivesIff(body, mangle);
  }

  /** What a reader of the response makes of the envelope by its flag: the text, or what its base64 stands for. */
  function ReadResponse(text: seq<scalar>, isBase64: bool): Option<seq<byte>> {
    if isBase64 then DecodeString(Base64.FromCodes(Encode(text))) else Some(Encode(text))
  }

  /** Whatever the body and its content type, the flag tells how to get every octet of it back. */
  lemma BodyComesBack(body: seq<byte>, ct: string, e: Envelope, mangle: seq<byte> -> seq<scalar>)
    requires Written(body, ct, e)
    ensures ReadResponse(Carried(e.text, mangle), e.isBase64) == Some(body)
  {
    if e.isBase64 {
      Base64Survives(body, mangle);
      EncodedIsAscii(body);
      DecodeStringInverts(body);
      CodesThere(Base64.Encode(body));
    } else {
      PlainSurvivesIff(body, mangle);
    }
  }
}
