/** Signed artifact links: sign and verify of internal/pypi/handler.go. The MAC and the URL parser are
    opaque deterministic functions. */
module Links {
  import opened Base64Url
  import opened Records
  import opened Sequences

  const NEWLINE: Byte := 10
  const RETURN: Byte := 13
  const DOT: Byte := 46
  const SLASH: Byte := 47
  const BACKSLASH: Byte := 92

  predicate IsAscii(s: string) { forall k :: 0 <= k < |s| ==> s[k] as int < 128 }

  /** The bytes of a string of ASCII characters. */
  function Ascii(s: string): (b: Bytes)
    requires IsAscii(s)
    ensures |b| == |s| && forall k :: 0 <= k < |s| ==> b[k] == s[k] as int
  {
    seq<Byte>(|s|, k requires 0 <= k < |s| => s[k] as int)
  }

  const HTTP: Bytes := Ascii("http")
  const HTTPS: Bytes := Ascii("https")

  /** A keyed MAC, with the key already in it. */
  type Mac = Bytes -> Bytes

  datatype Url = Url(scheme: Bytes, host: Bytes, fragment: Bytes)

  type UrlParser = Bytes -> Option<Url>

  datatype Link = Link(project: Bytes, url: Bytes)

  // ---- Splitting ----

  /** strings.Split: all the pieces between separators. */
  function Split(s: Bytes, c: Byte): seq<Bytes>
    decreases |s|
  {
    var i := IndexOf(s, c);
    if i == |s| then [s] else [s[..i]] + Split(s[i + 1..], c)
  }

  lemma SplitInTwo(s: Bytes, c: Byte)
    ensures |Split(s, c)| == 2 <==> IndexOf(s, c) < |s| && c !in s[IndexOf(s, c) + 1..]
    ensures |Split(s, c)| == 2 ==> Split(s, c) == [s[..IndexOf(s, c)], s[IndexOf(s, c) + 1..]]
    ensures |Split(s, c)| == 2 ==> s == Split(s, c)[0] + [c] + Split(s, c)[1]
  {
    hide IndexOf, Split;
    var i := IndexOf(s, c);
    SplitUnfold(s, c);
    if i < |s| {
      SplitWhole(s[i + 1..], c);
      CutAt(s, i);
    }
  }

  lemma CutAt(s: Bytes, i: nat)
    requires i < |s|
    ensures s == s[..i] + [s[i]] + s[i + 1..]
  {}

  lemma SplitUnfold(s: Bytes, c: Byte)
    ensures Split(s, c)
         == if IndexOf(s, c) == |s| then [s] else [s[..IndexOf(s, c)]] + Split(s[IndexOf(s, c) + 1..], c)
  {
    hide IndexOf;
  }

  lemma SplitWhole(s: Bytes, c: Byte)
    ensures |Split(s, c)| >= 1
    ensures |Split(s, c)| == 1 <==> c !in s
    ensures c !in s ==> Split(s, c) == [s]
  {
    hide IndexOf;
    var i := IndexOf(s, c);
    if i < |s| {
      SplitWhole(s[i + 1..], c);
    }
  }

  // ---- Signing and verifying ----

  /** validProject. */
  predicate ValidProject(p: Bytes) {
    && p != [] && SLASH !in p && BACKSLASH !in p && NEWLINE !in p && RETURN !in p
    && p != [DOT] && p != [DOT, DOT]
  }

  /** An absolute HTTP(S) URL without a fragment. */
  predicate ValidUrl(parse: UrlParser, u: Bytes) {
    match parse(u)
    case None => false
    case Some(url) => (url.scheme == HTTP || url.scheme == HTTPS) && url.host != [] && url.fragment == []
  }

  function Payload(link: Link): Bytes { Encode(link.project + [NEWLINE] + link.url) }

  /** sign. */
  function Sign(mac: Mac, link: Link): Bytes { Payload(link) + [DOT] + Encode(mac(Payload(link))) }

  /** verify. */
  function Verify(mac: Mac, parse: UrlParser, token: Bytes): Option<Link> {
    var parts := Split(token, DOT);
    if |parts| != 2 || parts[0] == [] || parts[1] == [] then None
    else if Decode(parts[1]) == None then None
    else if Decode(parts[1]).value != mac(parts[0]) then None
    else if Decode(parts[0]) == None then None
    else
      var decoded := Decode(parts[0]).value;
      var n := IndexOf(decoded, NEWLINE);
      if n == |decoded| || !ValidProject(decoded[..n]) then None
      else if !ValidUrl(parse, decoded[n + 1..]) then None
      else Some(Link(decoded[..n], decoded[n + 1..]))
  }

  /** `token` spells the payload of `link` and a MAC of that spelling. */
  ghost predicate Spells(mac: Mac, token: Bytes, link: Link, x: Bytes, y: Bytes) {
    && token == x + [DOT] + y && DOT !in x && DOT !in y && x != [] && y != []
    && Decode(y) == Some(mac(x))
    && Decode(x) == Some(link.project + [NEWLINE] + link.url)
  }

  /** Verification accepts a token as a link exactly when the token spells it and the link is valid. */
  lemma VerifyAccepts(mac: Mac, parse: UrlParser, token: Bytes, link: Link)
    ensures Verify(mac, parse, token) == Some(link) <==>
              && ValidProject(link.project) && ValidUrl(parse, link.url)
              && exists x, y :: Spells(mac, token, link, x, y)
  {
    hide Decode, Split, IndexOf;
    SplitInTwo(token, DOT);
    if Verify(mac, parse, token) == Some(link) {
      var x, y := Split(token, DOT)[0], Split(token, DOT)[1];
      var decoded := Decode(x).value;
      assert decoded == link.project + [NEWLINE] + link.url;
      assert Spells(mac, token, link, x, y);
    }
    if ValidProject(link.project) && ValidUrl(parse, link.url) && exists x, y :: Spells(mac, token, link, x, y) {
      var x, y :| Spells(mac, token, link, x, y);
      SpelledIsVerified(mac, parse, token, link, x, y);
    }
  }

  /** What an accepted link leads to: one path segment, and an absolute HTTP or HTTPS URL without a fragment. */
  lemma AcceptedLink(mac: Mac, parse: UrlParser, token: Bytes)
    requires Verify(mac, parse, token) != None
    ensures var link := Verify(mac, parse, token).value;
      && link.project != [] && link.project != Ascii(".") && link.project != Ascii("..")
      && (forall c :: c in Ascii("/\\\n\r") ==> c !in link.project)
      && parse(link.url).Some?
      && (parse(link.url).value.scheme == Ascii("http") || parse(link.url).value.scheme == Ascii("https"))
      && parse(link.url).value.host != [] && parse(link.url).value.fragment == []
  {
    hide Decode, Split, IndexOf, Spells;
    var link := Verify(mac, parse, token).value;
    VerifyAccepts(mac, parse, token, link);
    assert Ascii(".") == [DOT] && Ascii("..") == [DOT, DOT];
    assert Ascii("/\\\n\r") == [SLASH, BACKSLASH, NEWLINE, RETURN];
  }

  lemma SpelledIsVerified(mac: Mac, parse: UrlParser, token: Bytes, link: Link, x: Bytes, y: Bytes)
    requires ValidProject(link.project) && ValidUrl(parse, link.url) && Spells(mac, token, link, x, y)
    ensures Verify(mac, parse, token) == Some(link)
  {
    hide Decode, Split, IndexOf;
    IndexOfUnique(token, DOT, |x|);
    assert token[..|x|] == x && token[|x| + 1..] == y;
    SplitInTwo(token, DOT);
    var decoded := link.project + [NEWLINE] + link.url;
    var n := |link.project|;
    IndexOfUnique(decoded, NEWLINE, n);
    assert decoded[..n] == link.project && decoded[n + 1..] == link.url;
  }

  /** What `sign` takes that `verify` gives back, spelled out. */
  lemma SignedLinkIff(mac: Mac, parse: UrlParser, link: Link)
    requires mac(Payload(link)) != []
    ensures Verify(mac, parse, Sign(mac, link)) == Some(link) <==>
              && link.project != [] && link.project != Ascii(".") && link.project != Ascii("..")
              && (forall c :: c in Ascii("/\\\n\r") ==> c !in link.project)
              && parse(link.url).Some?
              && (parse(link.url).value.scheme == Ascii("http") || parse(link.url).value.scheme == Ascii("https"))
              && parse(link.url).value.host != [] && parse(link.url).value.fragment == []
  {
    hide Decode, Split, IndexOf, Spells, Verify, Sign;
    VerifySign(mac, parse, link);
    assert Ascii(".") == [DOT] && Ascii("..") == [DOT, DOT];
    assert Ascii("/\\\n\r") == [SLASH, BACKSLASH, NEWLINE, RETURN];
    assert forall c :: c in [SLASH, BACKSLASH, NEWLINE, RETURN] <==> c in {SLASH, BACKSLASH, NEWLINE, RETURN};
  }

  lemma SignSpells(mac: Mac, link: Link)
    requires mac(Payload(link)) != []
    ensures Spells(mac, Sign(mac, link), link, Payload(link), Encode(mac(Payload(link))))
  {
    hide Decode, Encode;
    var text := link.project + [NEWLINE] + link.url;
    EncodeInAlphabet(text);
    EncodeInAlphabet(mac(Payload(link)));
    DecodeEncode(text);
    DecodeEncode(mac(Payload(link)));
  }

  /** A signed link verifies as itself exactly when its project and URL are valid, whatever the URL
      contains after the first newline. */
  lemma VerifySign(mac: Mac, parse: UrlParser, link: Link)
    requires mac(Payload(link)) != []
    ensures Verify(mac, parse, Sign(mac, link)) == Some(link) <==> ValidProject(link.project) && ValidUrl(parse, link.url)
  {
    hide Verify, Spells;
    SignSpells(mac, link);
    VerifyAccepts(mac, parse, Sign(mac, link), link);
  }

  /** Two valid links never share a token. */
  lemma SignInjective(mac: Mac, a: Link, b: Link)
    requires ValidProject(a.project) && ValidProject(b.project)
    requires Sign(mac, a) == Sign(mac, b)
    ensures a == b
  {
    hide Decode, Encode, IndexOf;
    var s, t := a.project + [NEWLINE] + a.url, b.project + [NEWLINE] + b.url;
    EncodeInAlphabet(s);
    EncodeInAlphabet(t);
    var token := Sign(mac, a);
    IndexOfUnique(token, DOT, |Payload(a)|);
    IndexOfUnique(token, DOT, |Payload(b)|);
    assert token[..|Payload(a)|] == Payload(a) && token[..|Payload(b)|] == Payload(b);
    DecodeEncode(s);
    DecodeEncode(t);
    IndexOfUnique(s, NEWLINE, |a.project|);
    IndexOfUnique(t, NEWLINE, |b.project|);
    assert a.project == s[..|a.project|] && b.project == t[..|b.project|];
    assert a.url == s[|a.project| + 1..] && b.url == t[|b.project| + 1..];
  }
}
