/** The lab's stand-in for a FRITZ!Box: the loop that collects a request from arbitrary chunks,
    and the replies. */
module Lab {
  import opened Basics
  import opened Text
  import opened Hosts
  import Address
  import Decimal

  const BLANK: string := "\r\n\r\n"

  // ---------------------------------------------------------------------------------------
  // When a request is complete
  // ---------------------------------------------------------------------------------------

  predicate SameIgnoringCase(a: string, b: string) {
    |a| == |b| && forall i :: 0 <= i < |a| ==> LowerChar(a[i]) == LowerChar(b[i])
  }

  /** The value of a Content-Length line. */
  function LengthField(line: string): Option<nat> {
    match SplitOnce(line, ":")
    case None => None
    case Some((name, value)) =>
      if SameIgnoringCase(name, "Content-Length") then Decimal.Parse(Trim(value), U64_MAX) else None
  }

  function FirstLength(lines: seq<string>): Option<nat> {
    if lines == [] then None
    else if LengthField(lines[0]).Some? then LengthField(lines[0])
    else FirstLength(lines[1..])
  }

  /** `content_length`: the first line with a usable length. */
  function ContentLength(request: string): Option<nat> {
    FirstLength(Lines(Lossy(request)))
  }

  /** The loop stops reading: the header is there, and as much as it announces after it. */
  predicate Complete(request: string) {
    && Find(request, BLANK).Some?
    && ContentLength(request).Some?
    && |request| >= Find(request, BLANK).value + 4 + ContentLength(request).value
  }

  // ---------------------------------------------------------------------------------------
  // The read loop
  // ---------------------------------------------------------------------------------------

  /** The answers of the socket; `Bytes("")` is the end of the stream. */
  datatype Read = Bytes(bytes: string) | ReadFailed

  /** Why the loop stopped: the request is complete, the peer closed, a read failed; or it has
      not stopped and waits for more. */
  datatype Ending = Whole | Closed | Dropped | Waiting

  function Collect(request: string, answers: seq<Read>): (string, Ending)
    decreases |answers|
  {
    if answers == [] then (request, Waiting)
    else if answers[0].ReadFailed? then (request, Dropped)
    else if answers[0].bytes == "" then (request, Closed)
    else if Complete(request + answers[0].bytes) then (request + answers[0].bytes, Whole)
    else Collect(request + answers[0].bytes, answers[1..])
  }

  method ReadRequest(answers: seq<Read>) returns (request: string, ending: Ending)
    ensures (request, ending) == Collect("", answers)
  {
    request, ending := "", Waiting;
    for i := 0 to |answers|
      invariant Collect(request, answers[i..]) == Collect("", answers)
    {
      assert answers[i..][1..] == answers[i + 1..];
      match answers[i]
      case ReadFailed =>
        return request, Dropped;
      case Bytes(bytes) =>
        if bytes == "" {
          return request, Closed;
        }
        request := request + bytes;
        var blank := Find(request, BLANK);
        if blank.Some? {
          var length := ContentLength(request);
          if length.Some? {
            if |request| >= blank.value + 4 + length.value {
              return request, Whole;
            }
          }
        }
    }
  }

  // ---------------------------------------------------------------------------------------
  // Where the header ends
  // ---------------------------------------------------------------------------------------

  /** What a header line must not be for the first blank line to be the one that is meant. */
  predicate HeaderLine(l: string) { l != "" && l[0] != '\r' && '\n' !in l }

  predicate HeaderLines(lines: seq<string>) { forall i :: 0 <= i < |lines| ==> HeaderLine(lines[i]) }

  lemma NoBlankInLine(l: string, r: string)
    requires '\n' !in l
    ensures forall j :: 0 <= j < |l| ==> !At(l + CRLF + r, BLANK, j)
  {
    var s := l + CRLF + r;
    forall j | 0 <= j < |l|
      ensures !At(s, BLANK, j)
    {
      AtChars(s, BLANK, j, 1);
      assert s[j + 1] == if j + 1 < |l| then l[j + 1] else '\r';
    }
  }

  lemma BlankNext(l: string, r: string)
    requires '\n' !in l
    ensures Find(l + CRLF + (CRLF + r), BLANK) == Some(|l|)
  {
    var s := l + CRLF + (CRLF + r);
    NoBlankInLine(l, CRLF + r);
    assert s[|l|..|l| + 4] == BLANK;
    FindIs(s, BLANK, |l|);
  }

  lemma NoBlankAtBreak(l: string, r: string)
    requires r != "" && r[0] != '\r'
    ensures !At(l + CRLF + r, BLANK, |l|) && !At(l + CRLF + r, BLANK, |l| + 1)
  {
    var s := l + CRLF + r;
    assert s[|l| + 2] == r[0] && s[|l| + 1] == '\n';
    AtChars(s, BLANK, |l|, 2);
    AtChars(s, BLANK, |l| + 1, 0);
  }

  /** No occurrence of `p` starts in `l` or in the two characters after it. */
  lemma FindAfterBreak(l: string, brk: string, r: string, p: string)
    requires |brk| == 2 && !At(l + brk + r, p, |l|) && !At(l + brk + r, p, |l| + 1)
    requires forall j :: 0 <= j < |l| ==> !At(l + brk + r, p, j)
    ensures Find(l + brk + r, p) == match Find(r, p) case Some(k) => Some(|l| + 2 + k) case None => None
  {
    hide At, Find;
    FindSkips(l + brk, r, p);
  }

  lemma BlankLater(l: string, r: string)
    requires '\n' !in l && r != "" && r[0] != '\r'
    ensures Find(l + CRLF + r, BLANK)
         == match Find(r, BLANK) case Some(k) => Some(|l| + 2 + k) case None => None
  {
    hide At, Find;
    NoBlankInLine(l, r);
    NoBlankAtBreak(l, r);
    FindAfterBreak(l, CRLF, r, BLANK);
  }

  lemma JoinedStep(lines: seq<string>, rest: string)
    requires lines != []
    ensures Joined(lines) + rest == lines[0] + CRLF + (Joined(lines[1..]) + rest)
    ensures |Joined(lines)| == |lines[0]| + 2 + |Joined(lines[1..])|
  {
    var more := Joined(lines[1..]);
    assert Joined(lines) == lines[0] + CRLF + more;
    hide Joined;
    Assoc(lines[0], CRLF, more, rest);
  }

  lemma HeaderLinesTail(lines: seq<string>)
    requires lines != [] && HeaderLines(lines)
    ensures HeaderLine(lines[0]) && HeaderLines(lines[1..])
  {
    assert forall i :: 0 <= i < |lines[1..]| ==> lines[1..][i] == lines[i + 1];
  }

  lemma StartsWithLine(lines: seq<string>, rest: string)
    requires lines != [] && HeaderLines(lines)
    ensures Joined(lines) + rest != "" && (Joined(lines) + rest)[0] != '\r'
  {
    HeaderLinesTail(lines);
    JoinedStep(lines, rest);
    hide Joined, HeaderLines;
  }

  lemma LastHeaderLine(l: string, lines: seq<string>, body: string)
    requires lines == [l] && HeaderLine(l)
    ensures Find(Joined(lines) + (CRLF + body), BLANK) == Some(|Joined(lines)| - 2)
  {
    assert lines[1..] == [];
    assert Joined([]) == "";
    JoinedStep(lines, CRLF + body);
    hide Find, Joined, HeaderLines, At;
    assert "" + (CRLF + body) == CRLF + body;
    BlankNext(l, body);
  }

  /** The first blank line of a message is the one after its header lines. */
  lemma {:induction false} HeaderEnd(lines: seq<string>, body: string)
    requires lines != [] && HeaderLines(lines)
    ensures Find(Joined(lines) + (CRLF + body), BLANK) == Some(|Joined(lines)| - 2)
  {
    hide Find, Joined, HeaderLines, At;
    HeaderLinesTail(lines);
    var l, rest, end := lines[0], lines[1..], CRLF + body;
    if rest == [] {
      LastHeaderLine(l, lines, body);
    } else {
      HeaderEnd(rest, body);
      StartsWithLine(rest, end);
      BlankLater(l, Joined(rest) + end);
      JoinedStep(lines, end);
    }
  }

  // ---------------------------------------------------------------------------------------
  // What Content-Length says
  // ---------------------------------------------------------------------------------------

  lemma CrLfSplits(a: string, b: string)
    ensures a + CRLF + b == a + ['\r'] + (['\n'] + b)
  {}

  lemma LossyCrLf(l: string, r: string)
    ensures Lossy(l + CRLF + r) == Lossy(l) + CRLF + Lossy(r)
  {
    assert Lossy("") == "";
    hide Lossy;
    CrLfSplits(l, r);
    CrLfSplits(Lossy(l), Lossy(r));
    LossySplits(l, '\r', ['\n'] + r);
    LossySplits("", '\n', r);
    assert "" + ['\n'] + r == ['\n'] + r;
    assert "" + ['\n'] + Lossy(r) == ['\n'] + Lossy(r);
  }

  lemma LengthOfFirstLine(l: string, r: string)
    requires '\n' !in l
    ensures ContentLength(l + CRLF + r)
         == if LengthField(Lossy(l)).Some? then LengthField(Lossy(l)) else ContentLength(r)
  {
    LossyCrLf(l, r);
    LossyKeepsAscii(l, '\n');
    LinesCrLf(Lossy(l), Lossy(r));
    hide Lines, Lossy, LengthField;
  }

  /** The first `k` lines say nothing about the length, the next one says `n`. */
  lemma {:induction false} LengthOfHeader(lines: seq<string>, k: nat, n: nat, rest: string)
    requires k < |lines| && HeaderLines(lines)
    requires forall i :: 0 <= i < k ==> LengthField(Lossy(lines[i])) == None
    requires LengthField(Lossy(lines[k])) == Some(n)
    ensures ContentLength(Joined(lines) + rest) == Some(n)
  {
    hide ContentLength, LengthField, Lossy;
    var tail := Joined(lines[1..]) + rest;
    assert Joined(lines) + rest == lines[0] + CRLF + tail;
    assert HeaderLine(lines[0]);
    LengthOfFirstLine(lines[0], tail);
    if k > 0 {
      LengthOfHeader(lines[1..], k - 1, n, rest);
    }
  }

  lemma NoLength(name: string, value: string)
    requires AllAscii(name) && ':' !in name && |name| != 14
    ensures LengthField(Lossy(name + [':'] + value)) == None
  {
    LossySplits(name, ':', value);
    AsciiIsItself(name);
    SplitOnceAtChar(name, ':', Lossy(value));
    hide SplitOnce, Lossy;
    assert |"Content-Length"| == 14;
  }

  lemma NumeralChars(n: nat)
    ensures AllAscii(Decimal.Print(n)) && '\n' !in Decimal.Print(n) && Trimmed(Decimal.Print(n))
  {
    Decimal.PrintIsNumeral(n);
  }

  lemma LengthFieldOf(name: string, value: string)
    requires AllAscii(name) && ':' !in name && SameIgnoringCase(name, "Content-Length") && AllAscii(value)
    ensures LengthField(Lossy(name + [':'] + value)) == Decimal.Parse(Trim(value), U64_MAX)
  {
    LossySplits(name, ':', value);
    AsciiIsItself(name);
    AsciiIsItself(value);
    SplitOnceAtChar(name, ':', value);
    hide SplitOnce, Lossy, Decimal.Parse, Trim, SameIgnoringCase, AllAscii;
  }

  lemma LengthName()
    ensures "Content-Length: " == "Content-Length" + [':'] + " "
    ensures AllAscii("Content-Length") && ':' !in "Content-Length"
  {}

  lemma HasLengthValue(name: string, n: nat)
    requires AllAscii(name) && ':' !in name && SameIgnoringCase(name, "Content-Length") && n <= U64_MAX
    ensures LengthField(Lossy(name + [':'] + " " + Decimal.Print(n))) == Some(n)
  {
    var value := " " + Decimal.Print(n);
    NumeralChars(n);
    assert Blank(" ") && Blank("") && AllAscii(value);
    hide LengthField, Lossy, Decimal.Print, Trim, Decimal.Parse, Blank, Trimmed, AllAscii, SameIgnoringCase;
    Decimal.PrintParse(n, U64_MAX);
    assert value == " " + Decimal.Print(n) + "";
    TrimPart(" ", Decimal.Print(n), "", value);
    LengthFieldOf(name, value);
    AppendTwo(name, [':'], " ", Decimal.Print(n));
  }

  lemma AppendTwo(a: string, b: string, c: string, d: string)
    ensures a + b + c + d == a + b + (c + d)
  {}

  lemma HasLength(n: nat)
    requires n <= U64_MAX
    ensures LengthField(Lossy("Content-Length: " + Decimal.Print(n))) == Some(n)
  {
    hide LengthField, Lossy, Decimal.Print, AllAscii;
    LengthName();
    HasLengthValue("Content-Length", n);
  }

  // ---------------------------------------------------------------------------------------
  // Framing
  // ---------------------------------------------------------------------------------------

  lemma FixedHeaderLines()
    ensures HeaderLine("POST /upnp/control/hosts HTTP/1.1") && HeaderLine("Content-Type: text/xml; charset=\"utf-8\"")
    ensures HeaderLine("Connection: close")
  {}

  lemma ExtendedHeaderLine(start: string, more: string, end: string)
    requires HeaderLine(start) && '\n' !in more && '\n' !in end
    ensures HeaderLine(start + more + end)
  {}

  lemma HostHeaderLine(ip: Ipv4)
    ensures HeaderLine("Host: " + Address.PrintIpv4(ip) + ":49000")
  {
    Address.Ipv4Chars(ip);
    hide Address.PrintIpv4;
    ExtendedHeaderLine("Host: ", Address.PrintIpv4(ip), ":49000");
  }

  lemma ActionHeaderLine(action: string)
    requires '\n' !in action
    ensures HeaderLine("SOAPAction: \"" + SERVICE + "#" + action + "\"")
  {
    assert HeaderLine("SOAPAction: \"" + SERVICE + "#");
    ExtendedHeaderLine("SOAPAction: \"" + SERVICE + "#", action, "\"");
  }

  lemma LengthHeaderLine(n: nat)
    ensures HeaderLine("Content-Length: " + Decimal.Print(n))
  {
    NumeralChars(n);
    hide Decimal.Print;
    ExtendedHeaderLine("Content-Length: ", Decimal.Print(n), "");
    assert "Content-Length: " + Decimal.Print(n) + "" == "Content-Length: " + Decimal.Print(n);
  }

  lemma HeadLinesAreHeaderLines(ip: Ipv4, action: string, length: nat)
    requires '\n' !in action
    ensures HeaderLines(HeadLines(ip, action, length))
  {
    hide HeaderLine, Address.PrintIpv4, Decimal.Print;
    FixedHeaderLines();
    HostHeaderLine(ip);
    ActionHeaderLine(action);
    LengthHeaderLine(length);
  }

  lemma NoColonNoLength(l: string)
    requires AllAscii(l) && ':' !in l
    ensures LengthField(Lossy(l)) == None
  {
    AsciiIsItself(l);
    NothingToSplit(l, ':');
    hide Lossy, SplitOnce;
  }

  lemma RequestLineIsAscii()
    ensures AllAscii("POST /upnp/control/hosts HTTP/1.1")
  {}

  lemma RequestLineHasNoLength()
    ensures LengthField(Lossy("POST /upnp/control/hosts HTTP/1.1")) == None
  {
    RequestLineIsAscii();
    hide Lossy, LengthField, AllAscii;
    assert ':' !in "POST /upnp/control/hosts HTTP/1.1";
    NoColonNoLength("POST /upnp/control/hosts HTTP/1.1");
  }

  lemma ShortNames()
    ensures AllAscii("Host") && ':' !in "Host" && AllAscii("Content-Type") && ':' !in "Content-Type"
    ensures AllAscii("SOAPAction") && ':' !in "SOAPAction"
    ensures |"Host"| == 4 && |"Content-Type"| == 12 && |"SOAPAction"| == 10
  {}

  lemma OtherHeadersHaveNoLength(ip: Ipv4, action: string)
    ensures LengthField(Lossy("Host: " + Address.PrintIpv4(ip) + ":49000")) == None
    ensures LengthField(Lossy("Content-Type: text/xml; charset=\"utf-8\"")) == None
    ensures LengthField(Lossy("SOAPAction: \"" + SERVICE + "#" + action + "\"")) == None
  {
    ShortNames();
    hide LengthField, Lossy, Address.PrintIpv4, AllAscii;
    NoLength("Host", " " + Address.PrintIpv4(ip) + ":49000");
    assert "Host: " + Address.PrintIpv4(ip) + ":49000" == "Host" + [':'] + (" " + Address.PrintIpv4(ip) + ":49000");
    NoLength("Content-Type", " text/xml; charset=\"utf-8\"");
    assert "Content-Type: text/xml; charset=\"utf-8\"" == "Content-Type" + [':'] + " text/xml; charset=\"utf-8\"";
    NoLength("SOAPAction", " \"" + SERVICE + "#" + action + "\"");
    assert "SOAPAction: \"" + SERVICE + "#" + action + "\"" == "SOAPAction" + [':'] + (" \"" + SERVICE + "#" + action + "\"");
  }

  lemma RequestLength(ip: Ipv4, action: string, length: nat, rest: string)
    requires '\n' !in action && length <= U64_MAX
    ensures ContentLength(Joined(HeadLines(ip, action, length)) + rest) == Some(length)
  {
    hide ContentLength, LengthField, Lossy, HeaderLines, Joined, Address.PrintIpv4, Decimal.Print;
    HeadLinesAreHeaderLines(ip, action, length);
    RequestLineHasNoLength();
    OtherHeadersHaveNoLength(ip, action);
    HasLength(length);
    LengthOfHeader(HeadLines(ip, action, length), 4, length, rest);
  }

  /** Of every request the client prints, the lab finds exactly the whole complete: however the
      bytes are split, it neither stops early nor waits for more (section 6.3 of RFC 9112). */
  lemma CompleteMeansWhole(ip: Ipv4, action: string, arguments: string, n: nat)
    requires '\n' !in action && |HostsBody(action, arguments)| <= U64_MAX
    requires n <= |HostsRequest(ip, action, arguments)|
    ensures Complete(HostsRequest(ip, action, arguments)[..n]) <==> n == |HostsRequest(ip, action, arguments)|
  {
    hide ContentLength, HeadLines, Joined, HeaderLines, HostsBody, Find;
    var body := HostsBody(action, arguments);
    var head := Joined(HeadLines(ip, action, |body|));
    var request := HostsRequest(ip, action, arguments);
    assert request == head + (CRLF + body);
    HeadLinesAreHeaderLines(ip, action, |body|);
    HeadLinesNotEmpty(ip, action, |body|);
    HeaderEnd(HeadLines(ip, action, |body|), body);
    FindInPrefix(request, BLANK, n);
    if n >= |head| + 2 {
      RequestLength(ip, action, |body|, request[|head|..n]);
      assert request[..n] == head + request[|head|..n];
    }
  }

  lemma HeadLinesNotEmpty(ip: Ipv4, action: string, length: nat)
    ensures HeadLines(ip, action, length) != [] && |Joined(HeadLines(ip, action, length))| >= 2
  {}

  // ---------------------------------------------------------------------------------------
  // Any chunking
  // ---------------------------------------------------------------------------------------

  predicate AllData(answers: seq<Read>) {
    forall i :: 0 <= i < |answers| ==> answers[i].Bytes? && answers[i].bytes != ""
  }

  /** All the bytes that were read. */
  function Total(answers: seq<Read>): string
    requires AllData(answers)
  {
    if answers == [] then "" else answers[0].bytes + Total(answers[1..])
  }

  ghost predicate OnlyWholeIsComplete(full: string) {
    forall n: nat | n <= |full| :: Complete(full[..n]) <==> n == |full|
  }

  lemma {:induction false} CollectPart(full: string, done: string, answers: seq<Read>)
    requires OnlyWholeIsComplete(full) && AllData(answers)
    requires done + Total(answers) <= full
    ensures Collect(done, answers)
         == if done + Total(answers) == full && answers != [] then (full, Whole) else (done + Total(answers), Waiting)
    decreases |answers|
  {
    hide Complete;
    if answers == [] {
      assert done + "" == done;
    } else {
      var next := done + answers[0].bytes;
      assert next + Total(answers[1..]) == done + Total(answers);
      assert next == full[..|next|];
      if next == full {
        assert Total(answers[1..]) == "";
        assert answers[1..] == [];
      } else {
        CollectPart(full, next, answers[1..]);
      }
    }
  }

  /** The read loop ends holding the whole request, at its last byte, for every way the bytes of
      the request are split into non-empty reads. */
  lemma AnyChunking(ip: Ipv4, action: string, arguments: string, answers: seq<Read>)
    requires '\n' !in action && |HostsBody(action, arguments)| <= U64_MAX
    requires AllData(answers) && Total(answers) == HostsRequest(ip, action, arguments)
    ensures Collect("", answers) == (HostsRequest(ip, action, arguments), Whole)
    ensures forall k :: 0 <= k < |answers| ==> Collect("", answers[..k]).1 == Waiting
  {
    var full := HostsRequest(ip, action, arguments);
    hide Complete, HostsRequest, HostsBody;
    assert OnlyWholeIsComplete(full) by {
      forall n: nat | n <= |full|
        ensures Complete(full[..n]) <==> n == |full|
      {
        CompleteMeansWhole(ip, action, arguments, n);
      }
    }
    RequestNotEmpty(ip, action, arguments);
    assert "" + Total(answers) == Total(answers);
    CollectPart(full, "", answers);
    forall k | 0 <= k < |answers|
      ensures Collect("", answers[..k]).1 == Waiting
    {
      TotalGrows(answers, k);
      assert "" + Total(answers[..k]) == Total(answers[..k]);
      CollectPart(full, "", answers[..k]);
    }
  }

  lemma RequestNotEmpty(ip: Ipv4, action: string, arguments: string)
    ensures HostsRequest(ip, action, arguments) != ""
  {}

  lemma {:induction false} TotalGrows(answers: seq<Read>, k: nat)
    requires AllData(answers) && k < |answers|
    ensures Total(answers[..k]) < Total(answers)
  {
    if k > 0 {
      TotalGrows(answers[1..], k - 1);
      assert answers[..k][1..] == answers[1..][..k - 1];
    }
  }

  lemma TotalCons(first: Read, rest: seq<Read>)
    requires AllData([first] + rest)
    ensures first.Bytes? && AllData(rest) && Total([first] + rest) == first.bytes + Total(rest)
  {
    assert ([first] + rest)[0] == first && ([first] + rest)[1..] == rest;
    assert forall i :: 0 <= i < |rest| ==> ([first] + rest)[i + 1] == rest[i];
  }

  lemma PrefixBehind(done: string, first: Read, rest: seq<Read>, j: nat)
    requires first.Bytes? && first.bytes != "" && j <= |rest| && AllData(rest[..j])
    ensures var answers := [first] + rest;
      AllData(answers[..j + 1]) && done + Total(answers[..j + 1]) == done + first.bytes + Total(rest[..j])
  {
    assert ([first] + rest)[..j + 1] == [first] + rest[..j];
    TotalCons(first, rest[..j]);
  }

  /** What the loop holds, and why it stopped, whatever it reads: the first `k` reads, no fewer of
      which were a complete request; then a complete request, the end of the stream, a failed read,
      or nothing more so far. */
  lemma {:induction false} CollectMeans(done: string, answers: seq<Read>) returns (k: nat)
    ensures k <= |answers| && AllData(answers[..k])
    ensures var (request, ending) := Collect(done, answers);
      && request == done + Total(answers[..k])
      && (forall j :: 0 < j < k ==> AllData(answers[..j]) && !Complete(done + Total(answers[..j])))
      && (ending == Whole <==> k > 0 && Complete(request))
      && (ending == Closed ==> k < |answers| && answers[k] == Bytes(""))
      && (ending == Dropped ==> k < |answers| && answers[k] == ReadFailed)
      && (ending == Waiting ==> k == |answers|)
    decreases |answers|
  {
    hide Complete;
    k := 0;
    assert done + Total(answers[..0]) == done;
    if answers != [] && answers[0].Bytes? && answers[0].bytes != "" {
      assert answers == [answers[0]] + answers[1..];
      var first, rest := answers[0], answers[1..];
      var next := done + first.bytes;
      PrefixBehind(done, first, rest, 0);
      assert next + Total(rest[..0]) == next;
      k := 1;
      if !Complete(next) {
        k := CollectMeans(next, rest);
        PrefixBehind(done, first, rest, k);
        forall j | 0 < j < k + 1
          ensures AllData(answers[..j]) && !Complete(done + Total(answers[..j]))
        {
          assert rest[..k][..j - 1] == rest[..j - 1];
          PrefixBehind(done, first, rest, j - 1);
        }
        k := k + 1;
      }
    }
  }
}
