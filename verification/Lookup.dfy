/** A request and its reply, across both programs: what the lab answers to the client's printed
    requests, and what the client's parsers read from the answer. */
module Lookup {
  import opened Basics
  import opened Text
  import opened Hosts
  import opened Address
  import opened Lab
  import Decimal

  // ---------------------------------------------------------------------------------------
  // The lab's replies
  // ---------------------------------------------------------------------------------------

  const NOT_FOUND: string := "HTTP/1.1 404 Not Found" + CRLF + "Content-Length: 0\r\nConnection: close\r\n\r\n"
  const MAC_TAG: string := "<NewMACAddress>"
  const MAC_END: string := "</NewMACAddress>"
  const IP_TAG: string := "<NewIPAddress>"
  const IP_END: string := "</NewIPAddress>"
  const ACTIVE_TAG: string := "<NewActive>"
  const ACTIVE_END: string := "</NewActive>"

  const WAKE_REPLY: string :=
    EnvelopeOpen() + "><s:Body><u:X_AVM-DE_WakeOnLANByMACAddressResponse xmlns:u=\"" + SERVICE + "\"/></s:Body></s:Envelope>"

  const REPLY_OPEN: string := "GetSpecificHostEntryResponse xmlns:u=\""
  const ENTRY_CLOSE: string := "</u:GetSpecificHostEntryResponse"

  function LookupReply(pcIp: string): string {
    EnvelopeOpen() + BODY_OPEN + REPLY_OPEN + SERVICE + "\">" + IP_TAG + pcIp + IP_END + ACTIVE_TAG + "1" + ACTIVE_END
    + (ENTRY_CLOSE + ENVELOPE_CLOSE)
  }

  const REPLY_TYPE: string := "Content-Type: text/xml\r\n"
  const REPLY_HEAD: string := REPLY_TYPE + "Content-Length: "
  const REPLY_HEAD_END: string := "\r\nConnection: close\r\n\r\n"

  function Reply(body: string): string {
    STATUS_LINE + CRLF + (REPLY_HEAD + Decimal.Print(|body|) + REPLY_HEAD_END + body)
  }

  /** What the lab sends for a request; `pcIp` is the printed address it was started with. */
  function Respond(request: string, pcIp: string): string {
    var text := Lossy(request);
    if Contains(text, WAKE_ACTION) && Contains(text, MAC_TAG) then Reply(WAKE_REPLY)
    else if Contains(text, LOOKUP_ACTION) && Contains(text, MAC_TAG) then Reply(LookupReply(pcIp))
    else NOT_FOUND
  }

  // ---------------------------------------------------------------------------------------
  // The characters of requests and replies
  // ---------------------------------------------------------------------------------------

  /** The characters of all fixed texts but the action of a wake request and the reply tags. */
  predicate IsPlain(c: char) { IsAscii(c) && c != '_' && c != 'N' }

  predicate NoUnderscore(c: char) { IsAscii(c) && c != '_' }

  predicate Every(s: string, p: char -> bool) { forall i :: 0 <= i < |s| ==> p(s[i]) }

  lemma EveryJoined(s: string, t: string, p: char -> bool)
    requires Every(s, p) && Every(t, p)
    ensures Every(s + t, p)
  {}

  lemma AttributeStartsArePlain()
    ensures Every(XML_OPEN, IsPlain) && Every(ENVELOPE_TAG, IsPlain) && Every(ENCODING, IsPlain)
  {}

  lemma SchemasArePlain()
    ensures Every(ENVELOPE_SCHEMA, IsPlain) && Every(ENCODING_SCHEMA, IsPlain)
  {}

  lemma ElementsArePlain()
    ensures Every(BODY_OPEN, IsPlain) && Every(ENVELOPE_CLOSE, IsPlain)
  {}

  lemma ServiceIsPlain()
    ensures Every(SERVICE, IsPlain) && Every(" xmlns:u=\"", IsPlain) && Every("\">", IsPlain) && Every("</u:", IsPlain)
  {}

  lemma EnvelopeIsPlain()
    ensures Every(EnvelopeOpen(), IsPlain) && Every(EncodingStyle(), IsPlain)
  {
    AttributeStartsArePlain();
    SchemasArePlain();
    hide Every;
    EveryJoined(XML_OPEN, ENVELOPE_TAG, IsPlain);
    EveryJoined(XML_OPEN + ENVELOPE_TAG, ENVELOPE_SCHEMA, IsPlain);
    EveryJoined(ENCODING, ENCODING_SCHEMA, IsPlain);
  }

  lemma Weaker(s: string, p: char -> bool)
    requires Every(s, IsPlain) && forall c :: IsPlain(c) ==> p(c)
    ensures Every(s, p)
  {}

  lemma EveryOfFour(a: string, b: string, c: string, d: string, p: char -> bool)
    requires Every(a, p) && Every(b, p) && Every(c, p) && Every(d, p)
    ensures Every(a + b + c + d, p)
  {
    hide Every;
    EveryJoined(a, b, p);
    EveryJoined(a + b, c, p);
    EveryJoined(a + b + c, d, p);
  }

  lemma BodyIsEvery(action: string, arguments: string, p: char -> bool)
    requires (forall c :: IsPlain(c) ==> p(c)) && Every(action, p) && Every(arguments, p)
    ensures Every(HostsBody(action, arguments), p)
  {
    EnvelopeIsPlain();
    ElementsArePlain();
    ServiceIsPlain();
    Weaker(EnvelopeOpen(), p);
    Weaker(EncodingStyle(), p);
    Weaker(BODY_OPEN, p);
    Weaker(ENVELOPE_CLOSE, p);
    Weaker(SERVICE, p);
    Weaker(" xmlns:u=\"", p);
    Weaker("\">", p);
    Weaker("</u:", p);
    hide Every, EnvelopeOpen, EncodingStyle;
    var open := EnvelopeOpen() + EncodingStyle() + BODY_OPEN + action;
    EveryOfFour(EnvelopeOpen(), EncodingStyle(), BODY_OPEN, action, p);
    var start := open + " xmlns:u=\"" + SERVICE + "\">";
    EveryOfFour(open, " xmlns:u=\"", SERVICE, "\">", p);
    EveryOfFour(start, arguments, "</u:", action, p);
    EveryJoined(start + arguments + "</u:" + action, ENVELOPE_CLOSE, p);
  }

  lemma FixedLinesArePlain()
    ensures Every("POST /upnp/control/hosts HTTP/1.1", IsPlain) && Every("Connection: close", IsPlain)
    ensures Every("Content-Type: text/xml; charset=\"utf-8\"", IsPlain)
  {}

  lemma LineStartsArePlain()
    ensures Every("Host: ", IsPlain) && Every(":49000", IsPlain) && Every("SOAPAction: \"", IsPlain)
    ensures Every("#", IsPlain) && Every("\"", IsPlain) && Every("Content-Length: ", IsPlain)
  {}

  lemma NumbersArePlain(ip: Ipv4, n: nat)
    ensures Every(PrintIpv4(ip), IsPlain) && Every(Decimal.Print(n), IsPlain)
  {
    Ipv4Chars(ip);
    Decimal.PrintIsNumeral(n);
    hide PrintIpv4, Decimal.Print;
    var s := PrintIpv4(ip);
    assert forall i :: 0 <= i < |s| ==> s[i] in s;
  }

  lemma LinesAreEvery(ip: Ipv4, action: string, length: nat, p: char -> bool)
    requires (forall c :: IsPlain(c) ==> p(c)) && Every(action, p)
    ensures forall l <- HeadLines(ip, action, length) :: Every(l, p)
  {
    FixedLinesArePlain();
    LineStartsArePlain();
    NumbersArePlain(ip, length);
    ServiceIsPlain();
    Weaker("POST /upnp/control/hosts HTTP/1.1", p);
    Weaker("Connection: close", p);
    Weaker("Content-Type: text/xml; charset=\"utf-8\"", p);
    Weaker("SOAPAction: \"", p);
    Weaker("\"", p);
    Weaker("#", p);
    Weaker(SERVICE, p);
    hide Every, PrintIpv4, Decimal.Print;
    EveryJoined("Host: ", PrintIpv4(ip), IsPlain);
    EveryJoined("Host: " + PrintIpv4(ip), ":49000", IsPlain);
    Weaker("Host: " + PrintIpv4(ip) + ":49000", p);
    EveryJoined("Content-Length: ", Decimal.Print(length), IsPlain);
    Weaker("Content-Length: " + Decimal.Print(length), p);
    EveryOfFour("SOAPAction: \"", SERVICE, "#", action, p);
    EveryJoined("SOAPAction: \"" + SERVICE + "#" + action, "\"", p);
  }

  lemma {:induction false} JoinedIsEvery(lines: seq<string>, p: char -> bool)
    requires p('\r') && p('\n') && forall l <- lines :: Every(l, p)
    ensures Every(Joined(lines), p)
  {
    if lines != [] {
      assert lines[0] in lines;
      assert forall l <- lines[1..] :: l in lines;
      JoinedIsEvery(lines[1..], p);
      EveryJoined(lines[0], CRLF, p);
      EveryJoined(lines[0] + CRLF, Joined(lines[1..]), p);
    }
  }

  lemma RequestIsEvery(ip: Ipv4, action: string, arguments: string, p: char -> bool)
    requires (forall c :: IsPlain(c) ==> p(c)) && Every(action, p) && Every(arguments, p)
    ensures Every(HostsRequest(ip, action, arguments), p)
  {
    var body := HostsBody(action, arguments);
    BodyIsEvery(action, arguments, p);
    LinesAreEvery(ip, action, |body|, p);
    assert IsPlain('\r') && IsPlain('\n');
    assert Every(CRLF, p);
    hide Every, HeadLines, HostsBody, Joined;
    JoinedIsEvery(HeadLines(ip, action, |body|), p);
    EveryJoined(Joined(HeadLines(ip, action, |body|)), CRLF, p);
    EveryJoined(Joined(HeadLines(ip, action, |body|)) + CRLF, body, p);
  }

  // ---------------------------------------------------------------------------------------
  // Which branch a request takes
  // ---------------------------------------------------------------------------------------

  lemma MacTagsArePlain()
    ensures Every(MAC_TAG, NoUnderscore) && Every("</NewMACAddress>", NoUnderscore)
  {}

  lemma MacIsPlain(mac: MacAddress)
    ensures Every(PrintMac(mac), NoUnderscore)
  {
    MacChars(mac);
    hide PrintMac;
    var s := PrintMac(mac);
    assert forall i :: 0 <= i < |s| ==> s[i] in s;
  }

  lemma MacArgumentIsPlain(mac: MacAddress)
    ensures Every(MacArgument(mac), NoUnderscore) && Contains(MacArgument(mac), MAC_TAG)
  {
    ContainsItself(MAC_TAG);
    MacTagsArePlain();
    MacIsPlain(mac);
    hide PrintMac, Contains, Every;
    EveryJoined(MAC_TAG, PrintMac(mac), NoUnderscore);
    EveryJoined(MAC_TAG + PrintMac(mac), "</NewMACAddress>", NoUnderscore);
    ContainsGrows("", MAC_TAG, PrintMac(mac), MAC_TAG);
    ContainsGrows("", MAC_TAG + PrintMac(mac), "</NewMACAddress>", MAC_TAG);
  }

  /** A request contains its action and what its arguments contain. */
  lemma RequestContains(ip: Ipv4, action: string, arguments: string, p: string)
    requires Contains(arguments, p)
    ensures Contains(HostsRequest(ip, action, arguments), action) && Contains(HostsRequest(ip, action, arguments), p)
  {
    var open := EnvelopeOpen() + EncodingStyle() + BODY_OPEN;
    var start := open + action + " xmlns:u=\"" + SERVICE + "\">";
    var body := HostsBody(action, arguments);
    var head := Joined(HeadLines(ip, action, |body|)) + CRLF;
    ContainsItself(action);
    hide Contains, EnvelopeOpen, EncodingStyle, Joined, HeadLines;
    ContainsGrows(open, action, "", action);
    ContainsGrows("", open + action, " xmlns:u=\"", action);
    ContainsGrows("", open + action + " xmlns:u=\"", SERVICE, action);
    ContainsGrows("", open + action + " xmlns:u=\"" + SERVICE, "\">", action);
    ContainsGrows("", start, arguments, action);
    ContainsGrows(start, arguments, "", p);
    BodyContains(start + arguments, action, action);
    BodyContains(start + arguments, action, p);
    ContainsGrows(head, body, "", action);
    ContainsGrows(head, body, "", p);
  }

  lemma BodyContains(start: string, action: string, p: string)
    requires Contains(start, p)
    ensures Contains(start + "</u:" + action + ENVELOPE_CLOSE, p)
  {
    hide Contains;
    ContainsGrows("", start, "</u:", p);
    ContainsGrows("", start + "</u:", action, p);
    ContainsGrows("", start + "</u:" + action, ENVELOPE_CLOSE, p);
  }

  lemma LookupActionIsPlain()
    ensures Every(LOOKUP_ACTION, NoUnderscore)
  {}

  lemma WakeActionIsAscii()
    ensures Every(WAKE_ACTION, IsAscii) && WAKE_ACTION[1] == '_'
  {}

  lemma AsciiRequest(ip: Ipv4, action: string, mac: MacAddress)
    requires Every(action, IsAscii)
    ensures Lossy(HostsRequest(ip, action, MacArgument(mac))) == HostsRequest(ip, action, MacArgument(mac))
  {
    var request := HostsRequest(ip, action, MacArgument(mac));
    MacArgumentIsPlain(mac);
    assert Every(MacArgument(mac), IsAscii);
    hide HostsRequest, MacArgument, Lossy, Contains;
    RequestIsEvery(ip, action, MacArgument(mac), IsAscii);
    AsciiIsItself(request);
  }

  lemma LookupBranch(ip: Ipv4, mac: MacAddress, pcIp: string)
    ensures Respond(LookupRequest(ip, mac), pcIp) == Reply(LookupReply(pcIp))
  {
    MacArgumentIsPlain(mac);
    LookupActionIsPlain();
    assert Every(LOOKUP_ACTION, IsAscii);
    hide HostsRequest, MacArgument, Reply, LookupReply, Lossy, Contains;
    AsciiRequest(ip, LOOKUP_ACTION, mac);
    RequestIsEvery(ip, LOOKUP_ACTION, MacArgument(mac), NoUnderscore);
    assert '_' !in LookupRequest(ip, mac);
    WakeActionIsAscii();
    LacksChar(LookupRequest(ip, mac), WAKE_ACTION, 1);
    RequestContains(ip, LOOKUP_ACTION, MacArgument(mac), MAC_TAG);
  }

  lemma WakeBranch(ip: Ipv4, mac: MacAddress, pcIp: string)
    ensures Respond(WakeRequest(ip, mac), pcIp) == Reply(WAKE_REPLY)
  {
    MacArgumentIsPlain(mac);
    WakeActionIsAscii();
    hide HostsRequest, MacArgument, Reply, LookupReply, Lossy, Contains, Every;
    AsciiRequest(ip, WAKE_ACTION, mac);
    RequestContains(ip, WAKE_ACTION, MacArgument(mac), MAC_TAG);
  }

  /** For every MAC, the lab answers a lookup with the host entry and a wake request with the
      wake reply. */
  lemma BranchTaken(ip: Ipv4, mac: MacAddress, pcIp: string)
    ensures Respond(LookupRequest(ip, mac), pcIp) == Reply(LookupReply(pcIp))
    ensures Respond(WakeRequest(ip, mac), pcIp) == Reply(WAKE_REPLY)
  {
    hide Respond, Reply, LookupReply;
    LookupBranch(ip, mac, pcIp);
    WakeBranch(ip, mac, pcIp);
  }

  // ---------------------------------------------------------------------------------------
  // Which host a request names
  // ---------------------------------------------------------------------------------------

  /** No `<N`, and no `<` at the end: no tag that starts like the one of the MAC. */
  predicate Tagless(s: string) {
    forall i :: 0 <= i < |s| && s[i] == '<' ==> i + 1 < |s| && s[i + 1] != 'N'
  }

  lemma TaglessJoined(s: string, t: string)
    requires Tagless(s) && Tagless(t)
    ensures Tagless(s + t)
  {
    assert forall i :: 0 <= i < |s| ==> (s + t)[i] == s[i];
    assert forall i :: |s| <= i < |s + t| ==> (s + t)[i] == t[i - |s|];
  }

  lemma PlainIsTagless(s: string)
    requires Every(s, IsPlain) && (s != "" ==> s[|s| - 1] != '<')
    ensures Tagless(s)
  {}

  lemma NoTagIn(a: string, b: string)
    requires Tagless(a)
    ensures Find(a + b, MAC_TAG) == match Find(b, MAC_TAG) case Some(k) => Some(|a| + k) case None => None
  {
    assert MAC_TAG[0] == '<' && MAC_TAG[1] == 'N';
    forall j | 0 <= j < |a|
      ensures !At(a + b, MAC_TAG, j)
    {
      AtChars(a + b, MAC_TAG, j, 0);
      AtChars(a + b, MAC_TAG, j, 1);
    }
    hide Find, At;
    FindSkips(a, b, MAC_TAG);
  }

  lemma LinesAreTagless(ip: Ipv4, action: string, length: nat)
    requires '<' !in action
    ensures forall l <- HeadLines(ip, action, length) :: Tagless(l)
  {
    FixedLinesArePlain();
    LineStartsArePlain();
    NumbersArePlain(ip, length);
    Ipv4Chars(ip);
    ServiceIsPlain();
    Decimal.PrintIsNumeral(length);
    var host, number := "Host: " + PrintIpv4(ip), "Content-Length: " + Decimal.Print(length);
    assert Tagless(action);
    hide Every, PrintIpv4, Decimal.Print, Tagless;
    EveryJoined("Host: ", PrintIpv4(ip), IsPlain);
    EveryJoined(host, ":49000", IsPlain);
    PlainIsTagless(host + ":49000");
    EveryJoined("Content-Length: ", Decimal.Print(length), IsPlain);
    PlainIsTagless(number);
    PlainIsTagless("POST /upnp/control/hosts HTTP/1.1");
    PlainIsTagless("Content-Type: text/xml; charset=\"utf-8\"");
    PlainIsTagless("Connection: close");
    EveryJoined("SOAPAction: \"", SERVICE, IsPlain);
    EveryJoined("SOAPAction: \"" + SERVICE, "#", IsPlain);
    PlainIsTagless("SOAPAction: \"" + SERVICE + "#");
    TaglessJoined("SOAPAction: \"" + SERVICE + "#", action);
    PlainIsTagless("\"");
    TaglessJoined("SOAPAction: \"" + SERVICE + "#" + action, "\"");
  }

  lemma {:induction false} JoinedIsTagless(lines: seq<string>)
    requires forall l <- lines :: Tagless(l)
    ensures Tagless(Joined(lines))
  {
    if lines != [] {
      assert Tagless(CRLF);
      hide Tagless;
      assert lines[0] in lines;
      assert forall l <- lines[1..] :: l in lines;
      JoinedIsTagless(lines[1..]);
      TaglessJoined(lines[0], CRLF);
      TaglessJoined(lines[0] + CRLF, Joined(lines[1..]));
    }
  }

  /** A request up to its arguments. */
  function RequestStart(ip: Ipv4, action: string, length: nat): string {
    Joined(HeadLines(ip, action, length)) + CRLF
    + (EnvelopeOpen() + EncodingStyle() + BODY_OPEN + action + " xmlns:u=\"" + SERVICE + "\">")
  }

  lemma StartIsTagless(ip: Ipv4, action: string, length: nat)
    requires '<' !in action
    ensures Tagless(RequestStart(ip, action, length))
  {
    EnvelopeIsPlain();
    ElementsArePlain();
    ServiceIsPlain();
    LinesAreTagless(ip, action, length);
    assert Tagless(CRLF) && Tagless(action) && BODY_OPEN[|BODY_OPEN| - 1] == ':';
    hide Every, Tagless, EnvelopeOpen, EncodingStyle, HeadLines, Joined;
    JoinedIsTagless(HeadLines(ip, action, length));
    var open := EnvelopeOpen() + EncodingStyle() + BODY_OPEN;
    EveryJoined(EnvelopeOpen(), EncodingStyle(), IsPlain);
    EveryJoined(EnvelopeOpen() + EncodingStyle(), BODY_OPEN, IsPlain);
    PlainIsTagless(open);
    TaglessJoined(open, action);
    PlainIsTagless(" xmlns:u=\"");
    TaglessJoined(open + action, " xmlns:u=\"");
    PlainIsTagless(SERVICE);
    TaglessJoined(open + action + " xmlns:u=\"", SERVICE);
    PlainIsTagless("\">");
    TaglessJoined(open + action + " xmlns:u=\"" + SERVICE, "\">");
    TaglessJoined(Joined(HeadLines(ip, action, length)), CRLF);
    TaglessJoined(Joined(HeadLines(ip, action, length)) + CRLF,
                  open + action + " xmlns:u=\"" + SERVICE + "\">");
  }

  lemma RequestShape(ip: Ipv4, action: string, mac: MacAddress) returns (length: nat)
    ensures HostsRequest(ip, action, MacArgument(mac))
         == RequestStart(ip, action, length) + MAC_TAG
            + (PrintMac(mac) + MAC_END + ("</u:" + action + ENVELOPE_CLOSE))
  {
    var open := EnvelopeOpen() + EncodingStyle() + BODY_OPEN + action + " xmlns:u=\"" + SERVICE + "\">";
    length := |HostsBody(action, MacArgument(mac))|;
    var head := Joined(HeadLines(ip, action, length)) + CRLF;
    hide EnvelopeOpen, EncodingStyle, HeadLines, Joined, PrintMac;
    ArgumentTogether(head, open, MAC_TAG, PrintMac(mac), MAC_END, "</u:", action, ENVELOPE_CLOSE);
  }

  lemma ArgumentTogether(head: string, open: string, a: string, b: string, c: string, d: string, e: string, f: string)
    ensures head + (open + (a + b + c) + d + e + f) == head + open + a + (b + c + (d + e + f))
  {
    assert open + (a + b + c) + d + e + f == open + a + (b + c + (d + e + f));
  }

  /** The host that a request names, as the TR-064 service would read it. */
  function NamedMac(request: string): Option<MacAddress> {
    match Field(request, MAC_TAG, MAC_END)
    case Failure(_) => None
    case Success(text) => ParseMac(text)
  }

  lemma MacIsText(mac: MacAddress)
    ensures Trimmed(PrintMac(mac)) && '<' !in PrintMac(mac)
  {}

  lemma MacTagShape()
    ensures MAC_END != "" && MAC_END[0] == '<'
  {}

  lemma MacField(start: string, v: string, rest: string)
    requires Tagless(start) && Trimmed(v) && '<' !in v
    requires Strict(start + MAC_TAG + (v + MAC_END + rest)) == Some(start + MAC_TAG + (v + MAC_END + rest))
    ensures Field(start + MAC_TAG + (v + MAC_END + rest), MAC_TAG, MAC_END) == Success(v)
  {
    hide *;
    var behind := v + MAC_END + rest;
    MacTagShape();
    NoTagIn(start, MAC_TAG + behind);
    FindHere(MAC_TAG, behind);
    assert start + (MAC_TAG + behind) == start + MAC_TAG + behind;
    FieldBehind(start + MAC_TAG + behind, start, MAC_TAG, v, MAC_END, rest);
  }

  /** Every request names the MAC it was made for: its first MAC field is the printed form, which
      reads back to that MAC. */
  lemma RequestNamesMac(ip: Ipv4, action: string, mac: MacAddress)
    requires Every(action, IsAscii) && '<' !in action
    ensures Field(HostsRequest(ip, action, MacArgument(mac)), MAC_TAG, MAC_END) == Success(PrintMac(mac))
  {
    var request := HostsRequest(ip, action, MacArgument(mac));
    MacArgumentIsPlain(mac);
    MacIsText(mac);
    assert Every(MacArgument(mac), IsAscii);
    hide *;
    WeakerIsAscii();
    RequestIsEvery(ip, action, MacArgument(mac), IsAscii);
    AsciiText(request);
    var length := RequestShape(ip, action, mac);
    StartIsTagless(ip, action, length);
    MacField(RequestStart(ip, action, length), PrintMac(mac), "</u:" + action + ENVELOPE_CLOSE);
  }

  lemma WeakerIsAscii()
    ensures forall c :: IsPlain(c) ==> IsAscii(c)
  {}

  lemma AsciiText(s: string)
    requires Every(s, IsAscii)
    ensures Strict(s) == Some(s)
  {
    AsciiIsItself(s);
  }

  lemma RequestsNameMac(ip: Ipv4, mac: MacAddress)
    ensures NamedMac(LookupRequest(ip, mac)) == Some(mac) && NamedMac(WakeRequest(ip, mac)) == Some(mac)
  {
    LookupActionIsPlain();
    WakeActionIsAscii();
    ActionsHaveNoTags();
    assert Every(LOOKUP_ACTION, IsAscii);
    hide HostsRequest, MacArgument, Field, ParseMac, PrintMac, Every;
    MacRoundTrip(mac);
    RequestNamesMac(ip, LOOKUP_ACTION, mac);
    RequestNamesMac(ip, WAKE_ACTION, mac);
  }

  lemma ActionsHaveNoTags()
    ensures '<' !in LOOKUP_ACTION && '<' !in WAKE_ACTION
  {}

  // ---------------------------------------------------------------------------------------
  // What the client reads from the reply
  // ---------------------------------------------------------------------------------------

  /** A reply before its first tag. */
  function ReplyStart(length: nat): string {
    STATUS_LINE + CRLF + (REPLY_HEAD + Decimal.Print(length) + REPLY_HEAD_END
                          + (EnvelopeOpen() + BODY_OPEN + REPLY_OPEN + SERVICE + "\">"))
  }

  lemma ReplyPartsArePlain()
    ensures Every(STATUS_LINE, IsPlain) && Every(CRLF, IsPlain) && Every(REPLY_HEAD_END, IsPlain)
  {}

  lemma ReplyHeadIsPlain()
    ensures Every(REPLY_HEAD, IsPlain)
  {
    assert Every(REPLY_TYPE, IsPlain);
    LineStartsArePlain();
    hide Every;
    EveryJoined(REPLY_TYPE, "Content-Length: ", IsPlain);
  }

  lemma ReplyOpenIsPlain()
    ensures Every(REPLY_OPEN, IsPlain)
  {}

  lemma ReplyCloseIsAscii()
    ensures Every(ENTRY_CLOSE + ENVELOPE_CLOSE, IsAscii)
  {
    ElementsArePlain();
    Weaker(ENVELOPE_CLOSE, IsAscii);
    assert Every(ENTRY_CLOSE, IsAscii);
    hide Every;
    EveryJoined(ENTRY_CLOSE, ENVELOPE_CLOSE, IsAscii);
  }

  lemma TagsAreAscii()
    ensures Every(IP_TAG, IsAscii) && Every(IP_END, IsAscii) && Every(ACTIVE_TAG, IsAscii) && Every(ACTIVE_END, IsAscii)
    ensures Every("1", IsAscii)
  {}

  lemma ReplyStartIsPlain(length: nat)
    ensures Every(ReplyStart(length), IsPlain)
    ensures ReplyStart(length) != "" && ReplyStart(length)[|ReplyStart(length)| - 1] == '>'
  {
    ReplyPartsArePlain();
    ReplyHeadIsPlain();
    ReplyOpenIsPlain();
    EnvelopeIsPlain();
    ElementsArePlain();
    ServiceIsPlain();
    NumbersArePlain(Ipv4(0, 0, 0, 0), length);
    hide Every, EnvelopeOpen, Decimal.Print;
    EveryOfFour(EnvelopeOpen(), BODY_OPEN, REPLY_OPEN, SERVICE, IsPlain);
    var inner := EnvelopeOpen() + BODY_OPEN + REPLY_OPEN + SERVICE;
    EveryJoined(inner, "\">", IsPlain);
    EveryOfFour(REPLY_HEAD, Decimal.Print(length), REPLY_HEAD_END, inner + "\">", IsPlain);
    var rest := REPLY_HEAD + Decimal.Print(length) + REPLY_HEAD_END + (inner + "\">");
    EveryJoined(STATUS_LINE, CRLF, IsPlain);
    EveryJoined(STATUS_LINE + CRLF, rest, IsPlain);
  }

  /** The reply, cut at its fields. */
  function ReplyAfterIp(): string { ACTIVE_TAG + ("1" + ACTIVE_END + (ENTRY_CLOSE + ENVELOPE_CLOSE)) }

  lemma ReplyShape(pcIp: string)
    ensures Reply(LookupReply(pcIp))
         == ReplyStart(|LookupReply(pcIp)|) + IP_TAG + (pcIp + IP_END + ReplyAfterIp())
  {
    var inner := EnvelopeOpen() + BODY_OPEN + REPLY_OPEN + SERVICE + "\">";
    hide EnvelopeOpen, Decimal.Print;
    LookupReplyShape(inner, pcIp);
    var head := REPLY_HEAD + Decimal.Print(|LookupReply(pcIp)|) + REPLY_HEAD_END;
    PutTogether(STATUS_LINE + CRLF, head, inner, IP_TAG, pcIp + IP_END + ReplyAfterIp());
  }

  lemma LookupReplyShape(inner: string, pcIp: string)
    requires inner == EnvelopeOpen() + BODY_OPEN + REPLY_OPEN + SERVICE + "\">"
    ensures LookupReply(pcIp) == inner + (IP_TAG + (pcIp + IP_END + ReplyAfterIp()))
  {
    hide EnvelopeOpen;
    FieldsTogether(inner, IP_TAG, pcIp, IP_END, ACTIVE_TAG, "1", ACTIVE_END, ENTRY_CLOSE + ENVELOPE_CLOSE);
  }

  lemma FieldsTogether(a: string, b: string, c: string, d: string, e: string, f: string, g: string, h: string)
    ensures a + b + c + d + e + f + g + h == a + (b + (c + d + (e + (f + g + h))))
  {
    assert a + b + c + d == a + (b + (c + d));
    assert a + (b + (c + d)) + (e + (f + g + h)) == a + (b + (c + d + (e + (f + g + h))));
    assert a + b + c + d + e + f + g + h == a + b + c + d + (e + (f + g + h));
  }

  lemma PutTogether(a: string, b: string, c: string, d: string, e: string)
    ensures a + (b + (c + (d + e))) == a + (b + c) + d + e
  {}

  lemma ReplyIsAscii(pc: Ipv4, length: nat)
    ensures Every(ReplyStart(length) + IP_TAG + (PrintIpv4(pc) + IP_END + ReplyAfterIp()), IsAscii)
  {
    ReplyStartIsPlain(length);
    Weaker(ReplyStart(length), IsAscii);
    TagsAreAscii();
    ReplyCloseIsAscii();
    NumbersArePlain(pc, 0);
    Weaker(PrintIpv4(pc), IsAscii);
    hide Every, ReplyStart, PrintIpv4;
    EveryOfFour("1", ACTIVE_END, ENTRY_CLOSE + ENVELOPE_CLOSE, "", IsAscii);
    EveryJoined(ACTIVE_TAG, "1" + ACTIVE_END + (ENTRY_CLOSE + ENVELOPE_CLOSE), IsAscii);
    EveryOfFour(PrintIpv4(pc), IP_END, ReplyAfterIp(), "", IsAscii);
    EveryOfFour(ReplyStart(length), IP_TAG, PrintIpv4(pc) + IP_END + ReplyAfterIp(), "", IsAscii);
  }

  lemma TagChars()
    ensures IP_TAG[0] == '<' && IP_TAG[1] == 'N' && |IP_TAG| > 4 && IP_TAG[4] == 'I' && '<' !in IP_TAG[1..]
    ensures IP_END[0] == '<' && IP_END[1] == '/' && '<' !in IP_END[1..]
    ensures ACTIVE_TAG[0] == '<' && ACTIVE_TAG[1] == 'N' && |ACTIVE_TAG| > 4 && ACTIVE_TAG[4] == 'A'
  {}

  /** A tag is the first one after a plain text that does not end in its first character. */
  lemma TagAfterPlain(a: string, tag: string, rest: string)
    requires Every(a, IsPlain) && a != "" && a[|a| - 1] != '<' && |tag| > 1 && tag[0] == '<' && tag[1] == 'N'
    ensures Find(a + rest, tag) == match Find(rest, tag) case Some(k) => Some(|a| + k) case None => None
  {
    assert 'N' !in a;
    SkipWithoutSecond(a, rest, tag);
  }

  /** The value behind a tag, up to the closing tag. */
  lemma FieldBehind(text: string, a: string, start: string, v: string, end: string, rest: string)
    requires text == a + start + (v + end + rest) && Strict(text) == Some(text) && Find(text, start) == Some(|a|)
    requires Trimmed(v) && end != "" && end[0] == '<' && '<' !in v
    ensures Field(text, start, end) == Success(v)
  {
    hide Find, Strict, Trim, Trimmed;
    FindHere(end, rest);
    SkipWithoutFirst(v, end + rest, end);
    assert v + (end + rest) == v + end + rest;
    FieldReads(text, a, start, v, end, rest);
    TrimIdentity(v);
  }

  lemma FirstField(text: string, a: string, start: string, v: string, end: string, rest: string)
    requires text == a + start + (v + end + rest) && Strict(text) == Some(text)
    requires Every(a, IsPlain) && a != "" && a[|a| - 1] == '>' && Trimmed(v)
    requires |start| > 1 && start[0] == '<' && start[1] == 'N' && end != "" && end[0] == '<' && '<' !in v
    ensures Field(text, start, end) == Success(v)
  {
    hide Find, Every, IsPlain, Strict, Trim, Trimmed, Field;
    assert text == a + (start + (v + end + rest));
    FindHere(start, v + end + rest);
    TagAfterPlain(a, start, start + (v + end + rest));
    FieldBehind(text, a, start, v, end, rest);
  }

  lemma IpField(a: string, pc: Ipv4, rest: string)
    requires Every(a, IsPlain) && a != "" && a[|a| - 1] == '>'
    requires Every(a + IP_TAG + (PrintIpv4(pc) + IP_END + rest), IsAscii)
    ensures HostIp(a + IP_TAG + (PrintIpv4(pc) + IP_END + rest)) == Success(pc)
  {
    var text := a + IP_TAG + (PrintIpv4(pc) + IP_END + rest);
    TagChars();
    AsciiIsItself(text);
    Ipv4Chars(pc);
    hide PrintIpv4, Find, Every, IsPlain, Strict, Lossy, Trim, Field, Trimmed;
    FirstField(text, a, IP_TAG, PrintIpv4(pc), IP_END, rest);
    Ipv4RoundTrip(pc);
  }

  /** Behind another field the search for a tag starts afresh. */
  lemma TagAfterField(a: string, start: string, v: string, end: string, tag: string, rest: string)
    requires Every(a, IsPlain) && a != "" && a[|a| - 1] == '>'
    requires |tag| > 4 && tag[0] == '<' && tag[1] == 'N' && '<' !in v
    requires |start| > 4 && start[4] != tag[4] && '<' !in start[1..]
    requires |end| > 1 && end[1] != 'N' && '<' !in end[1..]
    ensures Find(a + (start + (v + (end + (tag + rest)))), tag) == Some(|a| + |start| + |v| + |end|)
  {
    hide Find, Every, IsPlain;
    FindHere(tag, rest);
    SkipMismatch(end, tag + rest, tag, 1);
    SkipWithoutFirst(v, end + (tag + rest), tag);
    SkipMismatch(start, v + (end + (tag + rest)), tag, 4);
    TagAfterPlain(a, tag, start + (v + (end + (tag + rest))));
  }

  lemma ActiveTagAfterIp(a: string, pc: Ipv4, rest: string)
    requires Every(a, IsPlain) && a != "" && a[|a| - 1] == '>'
    ensures Find(a + (IP_TAG + (PrintIpv4(pc) + (IP_END + (ACTIVE_TAG + rest)))), ACTIVE_TAG)
         == Some(|a| + |IP_TAG| + |PrintIpv4(pc)| + |IP_END|)
  {
    TagChars();
    Ipv4Chars(pc);
    hide PrintIpv4, Find, Every, IsPlain;
    TagAfterField(a, IP_TAG, PrintIpv4(pc), IP_END, ACTIVE_TAG, rest);
  }

  lemma Regroup(a: string, b: string, c: string, d: string, e: string, f: string)
    ensures a + b + (c + d + (e + f)) == a + (b + (c + (d + (e + f)))) == a + b + c + d + e + f
  {
    assert c + d + (e + f) == c + (d + (e + f));
    assert a + b + (c + (d + (e + f))) == a + (b + (c + (d + (e + f))));
    assert a + b + c + d + e + f == a + b + (c + (d + (e + f)));
  }

  lemma OneIsPlainText()
    ensures Trimmed("1") && '<' !in "1" && ACTIVE_END != "" && ACTIVE_END[0] == '<'
  {}

  lemma ActiveField(a: string, pc: Ipv4, rest: string)
    requires Every(a, IsPlain) && a != "" && a[|a| - 1] == '>'
    requires Every(a + IP_TAG + (PrintIpv4(pc) + IP_END + (ACTIVE_TAG + ("1" + ACTIVE_END + rest))), IsAscii)
    ensures HostActive(a + IP_TAG + (PrintIpv4(pc) + IP_END + (ACTIVE_TAG + ("1" + ACTIVE_END + rest)))) == Success(true)
  {
    var ip := PrintIpv4(pc);
    var after := "1" + ACTIVE_END + rest;
    var text := a + IP_TAG + (ip + IP_END + (ACTIVE_TAG + after));
    AsciiIsItself(text);
    OneIsPlainText();
    hide PrintIpv4, Find, Every, IsPlain, Strict, Lossy, Trim, Trimmed, Field;
    ActiveTagAfterIp(a, pc, after);
    Regroup(a, IP_TAG, ip, IP_END, ACTIVE_TAG, after);
    FieldBehind(text, a + IP_TAG + ip + IP_END, ACTIVE_TAG, "1", ACTIVE_END, rest);
  }

  lemma ReplyStatus(body: string)
    ensures HttpStatus(Reply(body)) == Success(200)
  {
    hide HttpStatus;
    StatusOk(REPLY_HEAD + Decimal.Print(|body|) + REPLY_HEAD_END + body);
  }

  /** For every MAC, every address of the box and every address of the PC, and however the
      request is split on its way: the lab reads the whole request, which names that MAC, and the
      client reads from its answer status 200, exactly the PC's address, and that the PC is active. */
  lemma LookupRoundTrip(fritz: Ipv4, mac: MacAddress, pc: Ipv4, answers: seq<Read>)
    requires AllData(answers) && Total(answers) == LookupRequest(fritz, mac)
    ensures var (request, ending) := Collect("", answers);
      var response := Respond(request, PrintIpv4(pc));
      && ending == Whole && request == LookupRequest(fritz, mac) && NamedMac(request) == Some(mac)
      && HttpStatus(response) == Success(200)
      && ResolvedIp(response) == Success(pc) && ResolvedActive(response) == Success(true)
  {
    hide HttpStatus, HostIp, HostActive, Collect, HostsRequest, MacArgument, NamedMac;
    BodyFits(mac);
    RequestsNameMac(fritz, mac);
    AnyChunking(fritz, LOOKUP_ACTION, MacArgument(mac), answers);
    BranchTaken(fritz, mac, PrintIpv4(pc));
    ReplyStatus(LookupReply(PrintIpv4(pc)));
    ReplyFields(pc);
  }

  lemma ReplyFields(pc: Ipv4)
    ensures HostIp(Reply(LookupReply(PrintIpv4(pc)))) == Success(pc)
    ensures HostActive(Reply(LookupReply(PrintIpv4(pc)))) == Success(true)
  {
    hide HostIp, HostActive, Reply, LookupReply, PrintIpv4, ReplyStart, Every;
    var length := |LookupReply(PrintIpv4(pc))|;
    ReplyShape(PrintIpv4(pc));
    ReplyIsAscii(pc, length);
    ReplyStartIsPlain(length);
    IpField(ReplyStart(length), pc, ReplyAfterIp());
    ActiveField(ReplyStart(length), pc, ENTRY_CLOSE + ENVELOPE_CLOSE);
  }

  /** The same for a wake request: it is read whole and accepted. */
  lemma WakeRoundTrip(fritz: Ipv4, mac: MacAddress, pcIp: string, answers: seq<Read>)
    requires AllData(answers) && Total(answers) == WakeRequest(fritz, mac)
    ensures var (request, ending) := Collect("", answers);
      && ending == Whole && request == WakeRequest(fritz, mac) && NamedMac(request) == Some(mac)
      && Respond(request, pcIp) == Reply(WAKE_REPLY) && WakeAccepted(Respond(request, pcIp)).Success?
  {
    hide HttpStatus, Collect, HostsRequest, MacArgument, Reply, NamedMac;
    BodyFits(mac);
    RequestsNameMac(fritz, mac);
    AnyChunking(fritz, WAKE_ACTION, MacArgument(mac), answers);
    BranchTaken(fritz, mac, pcIp);
    ReplyStatus(WAKE_REPLY);
  }

  lemma BodyFits(mac: MacAddress)
    ensures '\n' !in LOOKUP_ACTION && |HostsBody(LOOKUP_ACTION, MacArgument(mac))| <= U64_MAX
    ensures '\n' !in WAKE_ACTION && |HostsBody(WAKE_ACTION, MacArgument(mac))| <= U64_MAX
  {
    assert |PrintMac(mac)| == 17;
  }

  lemma NotFoundShape()
    ensures "HTTP/1.1 404 Not Found" == "HTTP/1.1" + (" " + ("404" + " Not Found"))
    ensures IsWord("HTTP/1.1") && AllAscii("HTTP/1.1") && AllAscii(" Not Found") && '\n' !in "HTTP/1.1" && '\n' !in " Not Found"
    ensures IsWhitespace(" Not Found"[0]) && " Not Found"[9] != '\r'
  {}

  lemma NotFoundNumber()
    ensures Decimal.Print(404) == "404"
  {
    assert Decimal.Print(4) == "4" && Decimal.Print(40) == "40";
  }

  /** Any request without a MAC tag, or with neither action, is rejected with status 404. */
  lemma OtherRequestsAreRejected(request: string, pcIp: string)
    requires !Contains(Lossy(request), "<NewMACAddress>")
          || (!Contains(Lossy(request), WAKE_ACTION) && !Contains(Lossy(request), LOOKUP_ACTION))
    ensures ResolvedIp(Respond(request, pcIp)) == Failure(Rejected(404))
    ensures WakeAccepted(Respond(request, pcIp)) == Failure(Rejected(404))
  {
    NotFoundShape();
    NotFoundNumber();
    hide HttpStatus, HostIp, Lossy, Contains, Reply, LookupReply, Decimal.Print, IsWord, AllAscii, IsWhitespace;
    assert Respond(request, pcIp) == NOT_FOUND;
    StatusReads("HTTP/1.1", 404, " Not Found", "Content-Length: 0\r\nConnection: close\r\n\r\n");
  }
}
