/** The client side of the FRITZ!Box Hosts service: the request printer and the parsers of its
    replies. */
module Hosts {
  import opened Basics
  import opened Text
  import opened Address
  import Decimal

  const CRLF: string := "\r\n"
  const SERVICE: string := "urn:dslforum-org:service:Hosts:1"
  const LOOKUP_ACTION: string := "GetSpecificHostEntry"
  const WAKE_ACTION: string := "X_AVM-DE_WakeOnLANByMACAddress"

  // ---------------------------------------------------------------------------------------
  // Requests
  // ---------------------------------------------------------------------------------------

  /** Lines, each with its line break. */
  function Joined(lines: seq<string>): string {
    if lines == [] then "" else lines[0] + CRLF + Joined(lines[1..])
  }

  const XML_OPEN: string := "<?xml version=\"1.0\"?>"
  const ENVELOPE_TAG: string := "<s:Envelope xmlns:s=\"http:"
  const ENVELOPE_SCHEMA: string := "//schemas.xmlsoap.org/soap/envelope/\""
  const ENCODING: string := " s:encodingStyle=\"http:"
  const ENCODING_SCHEMA: string := "//schemas.xmlsoap.org/soap/encoding/\""
  const BODY_OPEN: string := "><s:Body><u:"
  const ENVELOPE_CLOSE: string := "></s:Body></s:Envelope>"

  /** The start of an envelope, up to the attributes after the first namespace. */
  function EnvelopeOpen(): string { XML_OPEN + ENVELOPE_TAG + ENVELOPE_SCHEMA }

  function EncodingStyle(): string { ENCODING + ENCODING_SCHEMA }

  function HostsBody(action: string, arguments: string): string {
    EnvelopeOpen() + EncodingStyle() + BODY_OPEN + action + " xmlns:u=\"" + SERVICE + "\">"
    + arguments + "</u:" + action + ENVELOPE_CLOSE
  }

  function HeadLines(ip: Ipv4, action: string, length: nat): seq<string> {
    ["POST /upnp/control/hosts HTTP/1.1",
     "Host: " + PrintIpv4(ip) + ":49000",
     "Content-Type: text/xml; charset=\"utf-8\"",
     "SOAPAction: \"" + SERVICE + "#" + action + "\"",
     "Content-Length: " + Decimal.Print(length),
     "Connection: close"]
  }

  /** `fritz_hosts_request`: the header lines, a blank line and the body. */
  function HostsRequest(ip: Ipv4, action: string, arguments: string): string {
    var body := HostsBody(action, arguments);
    Joined(HeadLines(ip, action, |body|)) + CRLF + body
  }

  function MacArgument(mac: MacAddress): string {
    "<NewMACAddress>" + PrintMac(mac) + "</NewMACAddress>"
  }

  function LookupRequest(ip: Ipv4, mac: MacAddress): string {
    HostsRequest(ip, LOOKUP_ACTION, MacArgument(mac))
  }

  function WakeRequest(ip: Ipv4, mac: MacAddress): string {
    HostsRequest(ip, WAKE_ACTION, MacArgument(mac))
  }

  lemma JoinedCons(first: string, rest: seq<string>)
    ensures Joined([first] + rest) == first + CRLF + Joined(rest)
  {
    assert ([first] + rest)[1..] == rest;
  }

  /** Six lines and what follows them. */
  lemma JoinedSix(a: string, b: string, c: string, d: string, e: string, f: string, rest: string)
    ensures Joined([a, b, c, d, e, f]) + CRLF + rest
         == a + CRLF + (b + CRLF + (c + CRLF + (d + CRLF + (e + CRLF + (f + CRLF + (CRLF + rest))))))
  {
    assert [a, b, c, d, e, f] == [a] + ([b] + ([c] + ([d] + ([e] + ([f] + [])))));
    JoinedCons(f, []);
    JoinedCons(e, [f] + []);
    JoinedCons(d, [e] + ([f] + []));
    JoinedCons(c, [d] + ([e] + ([f] + [])));
    JoinedCons(b, [c] + ([d] + ([e] + ([f] + []))));
    JoinedCons(a, [b] + ([c] + ([d] + ([e] + ([f] + [])))));
    assert Joined([]) == "";
    hide *;
    Assoc(f, CRLF, "", CRLF + rest);
    Behind(f + CRLF, "", rest);
    Behind(e + CRLF, f + CRLF + "", rest);
    Behind(d + CRLF, e + CRLF + (f + CRLF + ""), rest);
    Behind(c + CRLF, d + CRLF + (e + CRLF + (f + CRLF + "")), rest);
    Behind(b + CRLF, c + CRLF + (d + CRLF + (e + CRLF + (f + CRLF + ""))), rest);
    Behind(a + CRLF, b + CRLF + (c + CRLF + (d + CRLF + (e + CRLF + (f + CRLF + "")))), rest);
    assert "" + CRLF + rest == CRLF + rest;
  }

  lemma Behind(line: string, more: string, rest: string)
    ensures line + more + CRLF + rest == line + (more + CRLF + rest)
  {}

  /** The whole text of a request, character by character. */
  lemma RequestText(ip: Ipv4, action: string, arguments: string)
    ensures var body := HostsBody(action, arguments);
      HostsRequest(ip, action, arguments)
      == "POST /upnp/control/hosts HTTP/1.1" + "\r\n"
      + ("Host: " + PrintIpv4(ip) + ":49000" + "\r\n"
      + ("Content-Type: text/xml; charset=\"utf-8\"" + "\r\n"
      + ("SOAPAction: \"" + "urn:dslforum-org:service:Hosts:1" + "#" + action + "\"" + "\r\n"
      + ("Content-Length: " + Decimal.Print(|body|) + "\r\n"
      + ("Connection: close" + "\r\n"
      + ("\r\n" + body))))))
    ensures HostsBody(action, arguments)
         == "<?xml version=\"1.0\"?>"
          + "<s:Envelope xmlns:s=\"http:" + "//schemas.xmlsoap.org/soap/envelope/\""
          + (" s:encodingStyle=\"http:" + "//schemas.xmlsoap.org/soap/encoding/\"")
          + "><s:Body><u:" + action + " xmlns:u=\"" + "urn:dslforum-org:service:Hosts:1" + "\">"
          + arguments + "</u:" + action + "></s:Body></s:Envelope>"
  {
    var body := HostsBody(action, arguments);
    hide Joined, PrintIpv4, Decimal.Print, EnvelopeOpen, EncodingStyle, HostsBody;
    var l := HeadLines(ip, action, |body|);
    assert l == [l[0], l[1], l[2], l[3], l[4], l[5]];
    JoinedSix(l[0], l[1], l[2], l[3], l[4], l[5], body);
    BodyText(action, arguments);
  }

  lemma BodyText(action: string, arguments: string)
    ensures HostsBody(action, arguments)
         == "<?xml version=\"1.0\"?>"
          + "<s:Envelope xmlns:s=\"http:" + "//schemas.xmlsoap.org/soap/envelope/\""
          + (" s:encodingStyle=\"http:" + "//schemas.xmlsoap.org/soap/encoding/\"")
          + "><s:Body><u:" + action + " xmlns:u=\"" + "urn:dslforum-org:service:Hosts:1" + "\">"
          + arguments + "</u:" + action + "></s:Body></s:Envelope>"
  {}

  // ---------------------------------------------------------------------------------------
  // Replies
  // ---------------------------------------------------------------------------------------

  datatype ReplyError =
    | NotUtf8
    | NoStatus
    | InvalidStatus
    | Rejected(status: nat)
    | MissingField
    | IncompleteField
    | InvalidField(value: string)

  function FirstLine(response: string): string {
    match Find(response, "\n")
    case Some(k) => response[..k]
    case None => response
  }

  function TrimEndCrs(s: string): string {
    if s != "" && s[|s| - 1] == '\r' then TrimEndCrs(s[..|s| - 1]) else s
  }

  /** The status a decoded first line gives: its second word, if that is a number that fits. */
  function StatusOf(words: seq<string>): Result<nat, ReplyError> {
    if |words| < 2 then Failure(NoStatus)
    else match Decimal.Parse(words[1], U16_MAX)
      case Some(status) => Success(status)
      case None => Failure(InvalidStatus)
  }

  function HttpStatus(response: string): Result<nat, ReplyError> {
    match Strict(FirstLine(response))
    case None => Failure(NotUtf8)
    case Some(line) => StatusOf(Words(TrimEndCrs(line)))
  }

  /** The trimmed text between the first `start` and the first `end` after it. */
  function Field(response: string, start: string, end: string): Result<string, ReplyError> {
    match Strict(response)
    case None => Failure(NotUtf8)
    case Some(text) =>
      var opening := SplitOnce(text, start);
      if opening.None? then Failure(MissingField)
      else
        var closing := SplitOnce(opening.value.1, end);
        if closing.None? then Failure(IncompleteField) else Success(Trim(closing.value.0))
  }

  function HostIp(response: string): Result<Ipv4, ReplyError> {
    match Field(response, "<NewIPAddress>", "</NewIPAddress>")
    case Failure(e) => Failure(e)
    case Success(value) =>
      match ParseIpv4(value)
      case Some(ip) => Success(ip)
      case None => Failure(InvalidField(value))
  }

  function HostActive(response: string): Result<bool, ReplyError> {
    match Field(response, "<NewActive>", "</NewActive>")
    case Failure(e) => Failure(e)
    case Success(value) =>
      if value == "1" || value == "true" then Success(true)
      else if value == "0" || value == "false" then Success(false)
      else Failure(InvalidField(value))
  }

  /** `hosts_action` after the exchange: only 2xx replies are used. */
  function Checked(response: string): Result<string, ReplyError> {
    match HttpStatus(response)
    case Failure(e) => Failure(e)
    case Success(status) => if 200 <= status < 300 then Success(response) else Failure(Rejected(status))
  }

  /** `host_ipv4` and `host_active` after the exchange. */
  function ResolvedIp(response: string): Result<Ipv4, ReplyError> {
    match Checked(response) case Failure(e) => Failure(e) case Success(r) => HostIp(r)
  }

  function ResolvedActive(response: string): Result<bool, ReplyError> {
    match Checked(response) case Failure(e) => Failure(e) case Success(r) => HostActive(r)
  }

  /** `send_wake` after the exchange. */
  function WakeAccepted(response: string): Result<(), ReplyError> {
    match Checked(response) case Failure(e) => Failure(e) case Success(_) => Success(())
  }

  // ---------------------------------------------------------------------------------------
  // What the parsers read
  // ---------------------------------------------------------------------------------------

  const STATUS_LINE: string := "HTTP/1.1 200 OK"

  lemma SecondWord(version: string, code: string, rest: string)
    requires IsWord(version) && IsWord(code) && (rest != "" ==> IsWhitespace(rest[0]))
    ensures Words(version + (" " + (code + rest))) == [version] + ([code] + Words(rest))
  {
    WordsCons(code, rest);
    WordsSkip(' ', code + rest);
    hide Words, IsWord;
    WordsCons(version, " " + (code + rest));
  }

  lemma StatusNumber()
    ensures Decimal.Parse("200", U16_MAX) == Some(200)
  {
    assert "200"[..2] == "20" && "20"[..1] == "2" && "2"[..0] == "";
    assert Decimal.Value("2") == 2;
    assert Decimal.Value("20") == 20;
    assert Decimal.Value("200") == 200;
  }

  predicate AllCrs(s: string) { forall i :: 0 <= i < |s| ==> s[i] == '\r' }

  lemma FirstLineIs(line: string, tail: string)
    requires '\n' !in line && (tail != "" ==> tail[0] == '\n')
    ensures FirstLine(line + tail) == line
  {
    SkipWithoutFirst(line, tail, "\n");
    if tail != "" {
      FindHere("\n", tail[1..]);
      assert "\n" + tail[1..] == tail;
    } else {
      LacksChar("", "\n", 0);
      assert line + tail == line;
    }
  }

  lemma {:induction false} TrimCrs(text: string, crs: string)
    requires AllCrs(crs) && (text != "" ==> text[|text| - 1] != '\r')
    ensures TrimEndCrs(text + crs) == text
  {
    if crs == "" {
      assert text + crs == text;
    } else {
      var init := crs[..|crs| - 1];
      assert (text + crs)[..|text + crs| - 1] == text + init;
      TrimCrs(text, init);
    }
  }

  lemma {:induction false} StrictCrs(line: string, crs: string)
    requires AllCrs(crs)
    ensures Strict(line + crs) == match Strict(line) case Some(text) => Some(text + crs) case None => None
  {
    hide Strict;
    if crs == "" {
      assert line + crs == line;
      assert Strict(line).Some? ==> Strict(line).value + crs == Strict(line).value;
    } else {
      var init := crs[..|crs| - 1];
      assert crs == init + ['\r'] && line + crs == line + init + ['\r'];
      StrictCrs(line, init);
      StrictAppends(line + init, '\r');
      assert Strict(line).Some? ==> Strict(line).value + init + ['\r'] == Strict(line).value + crs;
    }
  }

  /** Every reply is a first line, any number of carriage returns, and nothing or a line feed and
      more. Only the words of the line matter, and only if it is UTF-8. */
  lemma StatusIs(line: string, crs: string, tail: string)
    requires '\n' !in line && AllCrs(crs) && (tail != "" ==> tail[0] == '\n')
    requires Strict(line).Some? && Strict(line).value != "" ==> Strict(line).value[|Strict(line).value| - 1] != '\r'
    ensures HttpStatus(line + crs + tail)
         == match Strict(line) case Some(text) => StatusOf(Words(text)) case None => Failure(NotUtf8)
  {
    assert '\n' !in line + crs;
    hide Words, Decimal.Parse, Strict, FirstLine, TrimEndCrs;
    FirstLineIs(line + crs, tail);
    StrictCrs(line, crs);
    if Strict(line).Some? {
      TrimCrs(Strict(line).value, crs);
    }
  }

  lemma StatusLineShape()
    ensures STATUS_LINE == "HTTP/1.1" + (" " + ("200" + " OK"))
    ensures '\n' !in STATUS_LINE && STATUS_LINE != "" && STATUS_LINE[|STATUS_LINE| - 1] != '\r' && AllAscii(STATUS_LINE)
    ensures IsWord("HTTP/1.1")
  {}

  lemma CodeShape()
    ensures IsWord("200") && IsWhitespace(" OK"[0])
  {}

  lemma BreakSplits(line: string, rest: string)
    ensures line + CRLF + rest == line + "\r" + ("\n" + rest)
  {}

  lemma AsciiStatus(line: string, rest: string)
    requires AllAscii(line) && '\n' !in line && line != "" && line[|line| - 1] != '\r'
    ensures HttpStatus(line + CRLF + rest) == StatusOf(Words(line))
  {
    AsciiIsItself(line);
    BreakSplits(line, rest);
    hide HttpStatus, StatusOf, Words, Strict, AllAscii;
    StatusIs(line, "\r", "\n" + rest);
  }

  /** Every reply that starts with this status line has status 200. */
  lemma StatusOk(rest: string)
    ensures HttpStatus(STATUS_LINE + CRLF + rest) == Success(200)
  {
    hide HttpStatus, Words, Decimal.Parse, IsWord, AllAscii, IsWhitespace, Strict;
    StatusNumber();
    StatusLineShape();
    CodeShape();
    SecondWord("HTTP/1.1", "200", " OK");
    AsciiStatus(STATUS_LINE, rest);
  }

  lemma NumberIsWord(n: nat)
    ensures IsWord(Decimal.Print(n)) && AllAscii(Decimal.Print(n)) && '\n' !in Decimal.Print(n)
    ensures Decimal.Print(n)[|Decimal.Print(n)| - 1] != '\r'
  {
    Decimal.PrintIsNumeral(n);
  }

  lemma LineParts(version: string, code: string, rest: string)
    requires AllAscii(version) && AllAscii(code) && AllAscii(rest)
    requires '\n' !in version && '\n' !in code && '\n' !in rest && code != ""
    requires code[|code| - 1] != '\r' && (rest != "" ==> rest[|rest| - 1] != '\r')
    ensures var line := version + (" " + (code + rest));
      AllAscii(line) && '\n' !in line && line != "" && line[|line| - 1] != '\r'
  {}

  /** A status line is read for its number, if that fits in 16 bits, whatever stands around it. */
  lemma StatusReads(version: string, n: nat, rest: string, tail: string)
    requires IsWord(version) && AllAscii(version) && AllAscii(rest) && '\n' !in version && '\n' !in rest
    requires rest != "" ==> IsWhitespace(rest[0]) && rest[|rest| - 1] != '\r'
    ensures HttpStatus(version + (" " + (Decimal.Print(n) + rest)) + "\r\n" + tail)
         == if n <= 65_535 then Success(n) else Failure(InvalidStatus)
  {
    hide HttpStatus, Words, Decimal.Print, Decimal.Parse, IsWord, AllAscii, IsWhitespace, Strict;
    NumberIsWord(n);
    Decimal.PrintParse(n, U16_MAX);
    SecondWord(version, Decimal.Print(n), rest);
    LineParts(version, Decimal.Print(n), rest);
    AsciiStatus(version + (" " + (Decimal.Print(n) + rest)), tail);
  }

  /** Without a second word there is no status. */
  lemma NoSecondWord(line: string, tail: string)
    requires AllAscii(line) && '\n' !in line && line != "" && line[|line| - 1] != '\r' && |Words(line)| < 2
    ensures HttpStatus(line + "\r\n" + tail) == Failure(NoStatus)
  {
    hide HttpStatus, Words, AllAscii, Strict;
    AsciiStatus(line, tail);
  }

  /** A field is read from between its tags. */
  lemma FieldReads(response: string, a: string, start: string, v: string, end: string, b: string)
    requires Strict(response) == Some(a + start + (v + end + b))
    requires Find(a + start + (v + end + b), start) == Some(|a|) && Find(v + end + b, end) == Some(|v|)
    ensures Field(response, start, end) == Success(Trim(v))
  {
    SplitOnceAt(a, start, v + end + b);
    SplitOnceAt(v, end, b);
    hide Strict, SplitOnce, Find, Trim;
  }

  /** The other direction, for every reply whatever: a field is only read from between its
      tags, the opening one being the first in the reply and the closing one the first after
      it. */
  lemma FieldMeans(response: string, start: string, end: string) returns (a: string, v: string, b: string)
    requires Field(response, start, end).Success?
    ensures Strict(response) == Some(a + start + (v + end + b)) && Field(response, start, end) == Success(Trim(v))
    ensures Find(a + start + (v + end + b), start) == Some(|a|) && Find(v + end + b, end) == Some(|v|)
  {
    var text := Strict(response).value;
    SplitOnceMeans(text, start);
    var tail := SplitOnce(text, start).value.1;
    SplitOnceMeans(tail, end);
    hide Strict, Find, Trim, ParseIpv4;
    a, v, b := SplitOnce(text, start).value.0, SplitOnce(tail, end).value.0, SplitOnce(tail, end).value.1;
  }

  /** So no reply makes the client use an address unless its status is 2xx and its address field
      holds, apart from whitespace, the printed form of exactly that address. */
  lemma ResolvedIpMeans(response: string, ip: Ipv4) returns (status: nat, a: string, v: string, b: string)
    requires ResolvedIp(response) == Success(ip)
    ensures HttpStatus(response) == Success(status) && 200 <= status < 300
    ensures Strict(response) == Some(a + "<NewIPAddress>" + (v + "</NewIPAddress>" + b))
    ensures Find(a + "<NewIPAddress>" + (v + "</NewIPAddress>" + b), "<NewIPAddress>") == Some(|a|)
    ensures Trim(v) == PrintIpv4(ip)
  {
    status := HttpStatus(response).value;
    hide HttpStatus, Strict, Find, Trim, ParseIpv4, PrintIpv4, Field;
    a, v, b := FieldMeans(response, "<NewIPAddress>", "</NewIPAddress>");
    Ipv4ParseIff(Trim(v), ip);
  }

  /** Nor does it take a host for active or inactive unless its status field says so. */
  lemma HostActiveMeans(response: string) returns (a: string, v: string, b: string)
    requires HostActive(response).Success?
    ensures Strict(response) == Some(a + "<NewActive>" + (v + "</NewActive>" + b))
    ensures Find(a + "<NewActive>" + (v + "</NewActive>" + b), "<NewActive>") == Some(|a|)
    ensures HostActive(response).value <==> Trim(v) == "1" || Trim(v) == "true"
    ensures !HostActive(response).value <==> Trim(v) == "0" || Trim(v) == "false"
  {
    assert "1"[0] == '1' && "true"[0] == 't' && "0"[0] == '0' && "false"[0] == 'f';
    hide Strict, Find, Trim, Field;
    a, v, b := FieldMeans(response, "<NewActive>", "</NewActive>");
  }

  /** And each of the four values is read as it should be, and no other. */
  lemma HostActiveReads(response: string, a: string, v: string, b: string)
    requires Strict(response) == Some(a + "<NewActive>" + (v + "</NewActive>" + b))
    requires Find(a + "<NewActive>" + (v + "</NewActive>" + b), "<NewActive>") == Some(|a|)
    requires Find(v + "</NewActive>" + b, "</NewActive>") == Some(|v|)
    ensures Trim(v) == "1" || Trim(v) == "true" ==> HostActive(response) == Success(true)
    ensures Trim(v) == "0" || Trim(v) == "false" ==> HostActive(response) == Success(false)
    ensures Trim(v) !in ["0", "1", "false", "true"] ==> HostActive(response) == Failure(InvalidField(Trim(v)))
  {
    assert "1"[0] == '1' && "true"[0] == 't' && "0"[0] == '0' && "false"[0] == 'f';
    hide Strict, Find, Trim, Field;
    FieldReads(response, a, "<NewActive>", v, "</NewActive>", b);
  }

  /** An accepted reply with the printed form of an address in its field gives that address. */
  lemma ResolvedIpReads(response: string, status: nat, ip: Ipv4, a: string, v: string, b: string)
    requires HttpStatus(response) == Success(status)
    requires Strict(response) == Some(a + "<NewIPAddress>" + (v + "</NewIPAddress>" + b))
    requires Find(a + "<NewIPAddress>" + (v + "</NewIPAddress>" + b), "<NewIPAddress>") == Some(|a|)
    requires Find(v + "</NewIPAddress>" + b, "</NewIPAddress>") == Some(|v|)
    ensures ResolvedIp(response) == Success(ip) <==> 200 <= status <= 299 && Trim(v) == PrintIpv4(ip)
  {
    hide HttpStatus, Strict, Find, Trim, ParseIpv4, PrintIpv4, Field;
    FieldReads(response, a, "<NewIPAddress>", v, "</NewIPAddress>", b);
    Ipv4ParseIff(Trim(v), ip);
  }

  /** A wake request is accepted by exactly the replies of status 200 to 299. */
  lemma WakeAcceptedIff(response: string)
    ensures WakeAccepted(response).Success? <==>
            exists status: nat :: 200 <= status <= 299 && HttpStatus(response) == Success(status)
    ensures forall status: nat :: WakeAccepted(response) == Failure(Rejected(status)) <==>
            HttpStatus(response) == Success(status) && !(200 <= status <= 299)
  {
    hide Strict, FirstLine, TrimEndCrs, Words;
    assert HttpStatus(response).Failure? ==> !HttpStatus(response).error.Rejected?;
  }

  /** Why a field cannot be read: the reply is no text, or there is no opening tag, or no closing tag
      behind the first opening one. */
  lemma FieldFails(response: string, start: string, end: string)
    ensures Field(response, start, end) == Failure(NotUtf8) <==> Strict(response).None?
    ensures Field(response, start, end) == Failure(MissingField) <==>
            Strict(response).Some? && forall k :: !At(Strict(response).value, start, k)
    ensures Field(response, start, end) == Failure(IncompleteField) <==>
            && Strict(response).Some? && Find(Strict(response).value, start).Some?
            && forall k :: k >= Find(Strict(response).value, start).value + |start| ==> !At(Strict(response).value, end, k)
  {
    hide Strict, Trim;
    if Strict(response).Some? && Find(Strict(response).value, start).Some? {
      var text := Strict(response).value;
      var k := Find(text, start).value + |start|;
      assert text[..k] + text[k..] == text;
      forall j | j >= k
        ensures At(text, end, j) == At(text[k..], end, j - k)
      {
        AtSuffix(text[..k], text[k..], end, j);
      }
      hide Find, At;
      AfterIsNone(text, end, k);
    }
  }

  lemma AfterIsNone(text: string, end: string, k: nat)
    requires k <= |text| && forall j :: j >= k ==> At(text, end, j) == At(text[k..], end, j - k)
    ensures Find(text[k..], end).None? <==> forall j :: j >= k ==> !At(text, end, j)
  {
    hide Find, At;
    if Find(text[k..], end).None? {
      forall j | j >= k
        ensures !At(text, end, j)
      {
        assert !At(text[k..], end, j - k);
      }
    } else {
      var j := Find(text[k..], end).value;
      assert At(text, end, j + k) == At(text[k..], end, j + k - k);
    }
  }

  /** No reply of another status is looked into. */
  lemma RejectedRepliesAreNotRead(response: string, status: nat)
    requires HttpStatus(response) == Success(status)
    ensures !(200 <= status <= 299) ==>
              ResolvedIp(response) == Failure(Rejected(status)) && ResolvedActive(response) == Failure(Rejected(status))
    ensures 200 <= status <= 299 ==> ResolvedIp(response) == HostIp(response) && ResolvedActive(response) == HostActive(response)
  {
    hide HttpStatus, HostIp, HostActive;
  }
}
