/** tools/http/curl.py: a request rendered as one cURL command, one part
    per line. Every value is inserted verbatim, without shell quoting. */
module Curl {
  import opened Wrappers
  import opened Utf8

  /** The request body as httpx exposes it: not read yet (reading
      `content` then raises RequestNotRead), or the bytes read. */
  datatype Content = NotRead | Loaded(bytes: seq<Byte>)

  /** The request fields the command is built from. `headers` is the list
      httpx's `headers.items()` yields, in order. */
  datatype Request = Request(verb: string, url: string, headers: seq<(string, string)>, content: Content)

  /** A loaded body that is not UTF-8: the decode error is not caught and
      leaves the function, with the offset of the offending bytes. */
  datatype CurlError = UnicodeDecodeError(start: nat)

  const Separator: string := " \\\n "

  function MethodPart(verb: string): string {
    "curl -X '" + verb + "'"
  }

  function UrlPart(url: string): string {
    "'" + url + "'"
  }

  function HeaderPart(h: (string, string)): string {
    "-H '" + h.0 + ": " + h.1 + "'"
  }

  function DataPart(body: string): string {
    "-d '" + body + "'"
  }

  /** Whether the body takes part: `if body := request.content` is false
      for unread content and for empty bytes. */
  predicate HasBody(c: Content) {
    c.Loaded? && |c.bytes| > 0
  }

  /** The body's text when it takes part. */
  function BodyText(c: Content): (r: Result<Option<string>, CurlError>)
    ensures r.Success? && r.value.Some? <==> HasBody(c) && Decode(c.bytes).Success?
    ensures r.Success? && r.value.Some? ==> r.value.value == Decode(c.bytes).value
    ensures !HasBody(c) ==> r == Success(None)
    ensures r.Failure? ==> HasBody(c) && Decode(c.bytes) == Failure(r.error.start)
  {
    if !HasBody(c) then Success(None)
    else
      match Decode(c.bytes)
      case Success(s) => Success(Some(s))
      case Failure(at) => Failure(UnicodeDecodeError(at))
  }

  /** One `-H` part per header, in order. */
  function HeaderParts(hs: seq<(string, string)>): (ps: seq<string>)
    ensures |ps| == |hs| && forall i :: 0 <= i < |hs| ==> ps[i] == HeaderPart(hs[i])
  {
    seq(|hs|, i requires 0 <= i < |hs| => HeaderPart(hs[i]))
  }

  /** The list the command is joined from: the method, the url, the headers
      in order, and the body last when there is one. */
  function Parts(r: Request): (p: Result<seq<string>, CurlError>)
    ensures p.Success? <==> BodyText(r.content).Success?
    ensures p.Success? ==>
              |p.value| == 2 + |r.headers| + (if HasBody(r.content) then 1 else 0) &&
              p.value[0] == MethodPart(r.verb) && p.value[1] == UrlPart(r.url) &&
              (forall i :: 0 <= i < |r.headers| ==> p.value[2 + i] == HeaderPart(r.headers[i])) &&
              (HasBody(r.content) ==> p.value[|p.value| - 1] == DataPart(Decode(r.content.bytes).value))
  {
    var body :- BodyText(r.content);
    var data := if body.Some? then [DataPart(body.value)] else [];
    Success([MethodPart(r.verb), UrlPart(r.url)] + HeaderParts(r.headers) + data)
  }

  /** `sep.join(parts)`. */
  function Join(parts: seq<string>, sep: string): string
    decreases |parts|
  {
    if |parts| == 0 then ""
    else if |parts| == 1 then parts[0]
    else parts[0] + sep + Join(parts[1..], sep)
  }

  /** make_curl_from_request, as a value. */
  function MakeCurl(r: Request): Result<string, CurlError> {
    var parts :- Parts(r);
    Success(Join(parts, Separator))
  }

  /** make_curl_from_request as written: the list is built part by part,
      then joined. */
  method MakeCurlFromRequest(r: Request) returns (res: Result<string, CurlError>)
    ensures res.Success? <==> !HasBody(r.content) || Decode(r.content.bytes).Success?
    ensures res.Success? ==> res.value == Join(Parts(r).value, Separator)
    ensures res.Failure? ==> res.error.start < |r.content.bytes|
  {
    var result := [MethodPart(r.verb), UrlPart(r.url)];
    var i := 0;
    while i < |r.headers|
      invariant 0 <= i <= |r.headers|
      invariant result == [MethodPart(r.verb), UrlPart(r.url)] + HeaderParts(r.headers[..i])
    {
      assert HeaderParts(r.headers[..i + 1]) == HeaderParts(r.headers[..i]) + [HeaderPart(r.headers[i])];
      result := result + [HeaderPart(r.headers[i])];
      i := i + 1;
    }
    assert r.headers[..i] == r.headers;
    var base := result;
    assert base == [MethodPart(r.verb), UrlPart(r.url)] + HeaderParts(r.headers);
    if HasBody(r.content) {
      var text := Decode(r.content.bytes);
      if text.Failure? {
        return Failure(UnicodeDecodeError(text.error));
      }
      result := result + [DataPart(text.value)];
      assert BodyText(r.content) == Success(Some(text.value));
      assert Parts(r) == Success(base + [DataPart(text.value)]);
    } else {
      assert BodyText(r.content) == Success(None);
      assert Parts(r) == Success(base + []);
      assert base + [] == result;
    }
    assert Parts(r).value == result;
    return Success(Join(result, Separator));
  }

  /** Content not read yet gives no `-d` part and no error. */
  lemma UnreadContentIsSkipped(verb: string, url: string, headers: seq<(string, string)>)
    ensures var p := Parts(Request(verb, url, headers, NotRead));
            p.Success? && |p.value| == 2 + |headers|
  {
  }

  /** The command depends on the method, url, headers and body only, and
      different methods give different commands. */
  lemma MethodIsVisible(r: Request, m: string)
    requires m != r.verb && Parts(r).Success?
    ensures Parts(r.(verb := m)).Success? && Parts(r.(verb := m)).value != Parts(r).value
  {
    var a := MethodPart(m);
    var b := MethodPart(r.verb);
    assert a[9..|a| - 1] == m && b[9..|b| - 1] == r.verb;
  }

  /** The lines of a text: the pieces between newline characters. */
  function SplitLines(s: string): (lines: seq<string>)
    ensures |lines| >= 1
    decreases |s|
  {
    if |s| == 0 then [""]
    else if s[0] == '\n' then [""] + SplitLines(s[1..])
    else
      var rest := SplitLines(s[1..]);
      [[s[0]] + rest[0]] + rest[1..]
  }

  /** How the command looks on screen: each part on a line of its own,
      every line after the first indented by one space, and every line but
      the last continued with a backslash. */
  function CommandLines(parts: seq<string>): (lines: seq<string>)
    ensures |lines| == |parts|
  {
    seq(|parts|, i requires 0 <= i < |parts| =>
      (if i == 0 then "" else " ") + parts[i] + (if i == |parts| - 1 then "" else " \\"))
  }

  predicate NoNewline(s: string) {
    '\n' !in s
  }

  lemma {:induction false} SplitLinesPrefix(x: string, y: string)
    requires NoNewline(x)
    ensures SplitLines(x + y) == [x + SplitLines(y)[0]] + SplitLines(y)[1..]
    decreases |x|
  {
    if |x| > 0 {
      assert (x + y)[1..] == x[1..] + y;
      assert (x + y)[0] == x[0];
      SplitLinesPrefix(x[1..], y);
      assert [x[0]] + (x[1..] + SplitLines(y)[0]) == x + SplitLines(y)[0];
    } else {
      var ls := SplitLines(y);
      assert x + y == y;
      assert x + ls[0] == ls[0];
      assert ls == [ls[0]] + ls[1..];
    }
  }

  lemma SplitLinesAtNewline(x: string, y: string)
    requires NoNewline(x)
    ensures SplitLines(x + "\n" + y) == [x] + SplitLines(y)
  {
    SplitLinesPrefix(x, "\n" + y);
    assert x + "\n" + y == x + ("\n" + y);
    assert ("\n" + y)[0] == '\n' && ("\n" + y)[1..] == y;
    assert SplitLines("\n" + y) == [""] + SplitLines(y);
    assert x + "" == x;
  }

  /** When no part holds a newline, the joined command shows exactly the
      lines CommandLines describes. */
  lemma {:induction false} JoinedLines(parts: seq<string>)
    requires |parts| > 0 && forall i :: 0 <= i < |parts| ==> NoNewline(parts[i])
    ensures SplitLines(Join(parts, Separator)) == CommandLines(parts)
    decreases |parts|
  {
    if |parts| == 1 {
      SplitLinesPrefix(parts[0], "");
      assert parts[0] + "" == parts[0];
      assert SplitLines("") == [""];
      assert CommandLines(parts)[0] == "" + parts[0] + "" == parts[0];
    } else {
      var rest := parts[1..];
      assert Join(parts, Separator) == parts[0] + Separator + Join(rest, Separator);
      SplitJoinCons(parts[0], Join(rest, Separator));
      JoinedLines(rest);
      CommandLinesCons(parts);
    }
  }

  /** The separator ends the first line with a backslash and indents the
      next one. */
  lemma SplitJoinCons(p: string, j: string)
    requires NoNewline(p)
    ensures SplitLines(p + Separator + j) == [p + " \\"] + [" " + SplitLines(j)[0]] + SplitLines(j)[1..]
  {
    assert p + Separator + j == (p + " \\") + "\n" + (" " + j);
    assert NoNewline(p + " \\");
    SplitLinesAtNewline(p + " \\", " " + j);
    SplitLinesPrefix(" ", j);
  }

  lemma CommandLinesCons(parts: seq<string>)
    requires |parts| > 1
    ensures var rest := CommandLines(parts[1..]);
            CommandLines(parts) == [parts[0] + " \\"] + [" " + rest[0]] + rest[1..]
  {
    var rest := CommandLines(parts[1..]);
    var want := [parts[0] + " \\"] + [" " + rest[0]] + rest[1..];
    var got := CommandLines(parts);
    forall i | 0 <= i < |parts| ensures got[i] == want[i] {
      if i == 0 {
        assert got[0] == "" + parts[0] + " \\";
      } else if i == 1 {
        var post := if |parts| == 2 then "" else " \\";
        assert rest[0] == "" + parts[1] + post;
        assert got[1] == " " + parts[1] + post;
      } else {
        assert got[i] == rest[i - 1];
      }
    }
  }

  /** Reads the parts back from a command's lines: drops the indent of
      every line but the first and the continuation of every line but the
      last. */
  function ReadParts(lines: seq<string>): (parts: seq<string>)
    ensures |parts| == |lines|
  {
    seq(|lines|, i requires 0 <= i < |lines| =>
      var a := if i == 0 then 0 else 1;
      var b := if i == |lines| - 1 then 0 else 2;
      if a + b <= |lines[i]| then lines[i][a..|lines[i]| - b] else lines[i])
  }

  lemma ReadCommandLines(parts: seq<string>)
    ensures ReadParts(CommandLines(parts)) == parts
  {
    var lines := CommandLines(parts);
    forall i | 0 <= i < |parts| ensures ReadParts(lines)[i] == parts[i] {
      var pre := if i == 0 then "" else " ";
      var post := if i == |parts| - 1 then "" else " \\";
      assert lines[i] == pre + parts[i] + post;
      assert lines[i][|pre|..|lines[i]| - |post|] == parts[i];
    }
  }

  /** When no part holds a newline, the command can be taken apart again:
      its lines give back the method, url, header and body parts. */
  lemma CommandGivesBackParts(r: Request)
    requires Parts(r).Success? && forall i :: 0 <= i < |Parts(r).value| ==> NoNewline(Parts(r).value[i])
    ensures ReadParts(SplitLines(MakeCurl(r).value)) == Parts(r).value
  {
    JoinedLines(Parts(r).value);
    ReadCommandLines(Parts(r).value);
  }
}
