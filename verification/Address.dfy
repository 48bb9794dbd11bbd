/** The text forms of the two addresses: IPv4 dotted decimal and upper-case hexadecimal MAC. */
module Address {
  import opened Basics
  import opened Decimal
  import opened Text

  function PrintIpv4(ip: Ipv4): string {
    Print(ip.a) + "." + Print(ip.b) + "." + Print(ip.c) + "." + Print(ip.d)
  }

  /** One to three digits, no leading zero, at most 255. */
  function ParseOctet(s: string): Option<Octet> {
    if |s| > 3 || (|s| > 1 && s[0] == '0') || (s != "" && s[0] == '+') then None
    else match Parse(s, 255)
      case Some(n) => Some(n)
      case None => None
  }

  /** `Ipv4Addr::from_str`. */
  function ParseIpv4(s: string): Option<Ipv4> {
    var first := SplitOnce(s, ".");
    if first.None? then None
    else
      var second := SplitOnce(first.value.1, ".");
      if second.None? then None
      else
        var third := SplitOnce(second.value.1, ".");
        if third.None? then None
        else
          var a, b := ParseOctet(first.value.0), ParseOctet(second.value.0);
          var c, d := ParseOctet(third.value.0), ParseOctet(third.value.1);
          if a.Some? && b.Some? && c.Some? && d.Some? then Some(Ipv4(a.value, b.value, c.value, d.value)) else None
  }

  lemma OctetRoundTrip(n: Octet)
    ensures ParseOctet(Print(n)) == Some(n) && AllDigits(Print(n)) && Print(n) != "" && '.' !in Print(n)
  {
    PrintIsNumeral(n);
    PrintLength(n);
    if Print(n)[0] == '0' {
      assert |Print(0)| == 1;
    }
  }

  /** Every address is read back from its printed form. */
  lemma Ipv4RoundTrip(ip: Ipv4)
    ensures ParseIpv4(PrintIpv4(ip)) == Some(ip)
  {
    OctetRoundTrip(ip.a);
    OctetRoundTrip(ip.b);
    OctetRoundTrip(ip.c);
    OctetRoundTrip(ip.d);
    hide Print, ParseOctet, SplitOnce;
    var a, b, c, d := Print(ip.a), Print(ip.b), Print(ip.c), Print(ip.d);
    var tail3, tail2 := c + "." + d, b + "." + (c + "." + d);
    SplitOnceAtChar(c, '.', d);
    SplitOnceAtChar(b, '.', tail3);
    SplitOnceAtChar(a, '.', tail2);
    assert a + "." + tail2 == PrintIpv4(ip);
  }

  lemma OctetParseIff(s: string, n: Octet)
    ensures ParseOctet(s) == Some(n) <==> s == Print(n)
  {
    OctetRoundTrip(n);
    if ParseOctet(s).Some? {
      NumeralIsPrint(s);
    }
  }

  /** The four parts of a text that is read as an address. */
  lemma Ipv4Parts(s: string) returns (a: string, b: string, c: string, d: string)
    requires ParseIpv4(s).Some?
    ensures s == a + "." + (b + "." + (c + "." + d))
    ensures var ip := ParseIpv4(s).value;
      ParseOctet(a) == Some(ip.a) && ParseOctet(b) == Some(ip.b) && ParseOctet(c) == Some(ip.c) && ParseOctet(d) == Some(ip.d)
  {
    hide ParseOctet, SplitOnce, Find;
    SplitOnceMeans(s, ".");
    var rest := SplitOnce(s, ".").value.1;
    SplitOnceMeans(rest, ".");
    var last := SplitOnce(rest, ".").value.1;
    SplitOnceMeans(last, ".");
    a, b, c, d := SplitOnce(s, ".").value.0, SplitOnce(rest, ".").value.0, SplitOnce(last, ".").value.0, SplitOnce(last, ".").value.1;
  }

  lemma DotsTogether(a: string, b: string, c: string, d: string)
    ensures a + "." + (b + "." + (c + "." + d)) == a + "." + b + "." + c + "." + d
  {}

  /** The printed form is the only text that is read as the address. */
  lemma Ipv4ParseIff(s: string, ip: Ipv4)
    ensures ParseIpv4(s) == Some(ip) <==> s == PrintIpv4(ip)
  {
    Ipv4RoundTrip(ip);
    if ParseIpv4(s) == Some(ip) {
      hide Print, ParseOctet, ParseIpv4;
      var a, b, c, d := Ipv4Parts(s);
      OctetParseIff(a, ip.a);
      OctetParseIff(b, ip.b);
      OctetParseIff(c, ip.c);
      OctetParseIff(d, ip.d);
      DotsTogether(a, b, c, d);
    }
  }

  /** Printed addresses hold digits and dots only. */
  lemma Ipv4Chars(ip: Ipv4)
    ensures forall c :: c in PrintIpv4(ip) ==> c == '.' || IsDigit(c)
    ensures Trimmed(PrintIpv4(ip))
  {
    PrintIsNumeral(ip.a);
    PrintIsNumeral(ip.b);
    PrintIsNumeral(ip.c);
    PrintIsNumeral(ip.d);
    hide Print;
    forall ch | ch in PrintIpv4(ip)
      ensures ch == '.' || IsDigit(ch)
    {
      assert ch in Print(ip.a) || ch == '.' || ch in Print(ip.b) || ch in Print(ip.c) || ch in Print(ip.d);
    }
    var s := PrintIpv4(ip);
    assert s[0] in s && s[|s| - 1] in s;
  }

  function HexDigit(d: nat): char
    requires d < 16
  {
    if d < 10 then ('0' as int + d) as char else ('A' as int + d - 10) as char
  }

  function Hex(n: Octet): string { [HexDigit(n / 16), HexDigit(n % 16)] }

  function PrintMac(mac: MacAddress): string {
    Hex(mac.m0) + ":" + Hex(mac.m1) + ":" + Hex(mac.m2) + ":" + Hex(mac.m3) + ":" + Hex(mac.m4) + ":" + Hex(mac.m5)
  }

  lemma MacChars(mac: MacAddress)
    ensures forall c :: c in PrintMac(mac) ==> IsDigit(c) || 'A' <= c <= 'F' || c == ':'
  {}

  /** The value of a digit of base 16, of either case. */
  function HexValue(c: char): Option<nat> {
    if '0' <= c <= '9' then Some(c as int - '0' as int)
    else if 'A' <= c <= 'F' then Some(c as int - 'A' as int + 10)
    else if 'a' <= c <= 'f' then Some(c as int - 'a' as int + 10)
    else None
  }

  /** `u8::from_str_radix` in base 16, for two characters: a plus sign may come first. */
  function ParseHexOctet(part: string): (r: Option<Octet>)
    ensures r.Some? ==> |part| == 2 && ':' !in part && '-' !in part
  {
    if |part| != 2 || HexValue(part[1]).None? then None
    else if part[0] == '+' then Some(HexValue(part[1]).value)
    else if HexValue(part[0]).None? then None
    else Some(HexValue(part[0]).value * 16 + HexValue(part[1]).value)
  }

  function ColonsForDashes(s: string): string {
    seq(|s|, i requires 0 <= i < |s| => if s[i] == '-' then ':' else s[i])
  }

  function MacOf(octets: seq<Option<Octet>>): Option<MacAddress> {
    if |octets| == 6 && forall i :: 0 <= i < 6 ==> octets[i].Some? then
      Some(MacAddress(octets[0].value, octets[1].value, octets[2].value, octets[3].value, octets[4].value, octets[5].value))
    else None
  }

  /** `MacAddress::from_str`: six parts between colons or dashes, each of two characters. */
  function ParseMac(s: string): Option<MacAddress> {
    var parts := Pieces(ColonsForDashes(s), ':');
    MacOf(seq(|parts|, i requires 0 <= i < |parts| => ParseHexOctet(parts[i])))
  }

  lemma HexRoundTrip(n: Octet)
    ensures ParseHexOctet(Hex(n)) == Some(n)
    ensures ParseHexOctet(Lower(Hex(n))) == Some(n)
  {}

  const HEX_DIGITS: string := "0123456789ABCDEF"

  /** The high digit comes first; letters are in upper case. */
  lemma HexDigits(n: Octet)
    ensures Hex(n) == [HEX_DIGITS[n / 16], HEX_DIGITS[n % 16]]
  {
    DigitAt(n / 16);
    DigitAt(n % 16);
  }

  lemma DigitAt(d: nat)
    requires d < 16
    ensures HexDigit(d) == HEX_DIGITS[d]
  {
    assert forall i :: 0 <= i < 10 ==> HEX_DIGITS[i] as int == '0' as int + i;
    assert forall i :: 10 <= i < 16 ==> HEX_DIGITS[i] as int == 'A' as int + i - 10;
  }

  lemma PrintMacExample()
    ensures PrintMac(MacAddress(0x00, 0x11, 0x22, 0x33, 0x44, 0x5A)) == "00:11:22:33:44:5A"
  {
    assert Hex(0x00) == "00" && Hex(0x11) == "11" && Hex(0x22) == "22";
    assert Hex(0x33) == "33" && Hex(0x44) == "44" && Hex(0x5A) == "5A";
  }

  lemma NoDashes(s: string)
    requires '-' !in s
    ensures ColonsForDashes(s) == s
  {}

  lemma DashesConcat(a: string, b: string)
    ensures ColonsForDashes(a + b) == ColonsForDashes(a) + ColonsForDashes(b)
  {}

  /** One part and its separator. */
  lemma MacPart(part: string, separator: char, rest: string)
    requires ParseHexOctet(part).Some? && (separator == ':' || separator == '-')
    ensures Pieces(ColonsForDashes(part + [separator] + rest), ':') == [part] + Pieces(ColonsForDashes(rest), ':')
  {
    NoDashes(part);
    assert ColonsForDashes([separator]) == ":";
    hide Pieces, ColonsForDashes, ParseHexOctet;
    DashesConcat(part, [separator]);
    DashesConcat(part + [separator], rest);
    PiecesCons(part, ':', ColonsForDashes(rest));
  }

  /** Every MAC address is read from any spelling of its octets, whatever mixture of the two
      separators stands between them. */
  lemma MacForms(mac: MacAddress, p: seq<string>, s: seq<char>)
    requires |p| == 6 && |s| == 5 && forall i :: 0 <= i < 5 ==> s[i] == ':' || s[i] == '-'
    requires forall i :: 0 <= i < 6 ==>
               ParseHexOctet(p[i]) == Some([mac.m0, mac.m1, mac.m2, mac.m3, mac.m4, mac.m5][i])
    ensures ParseMac(p[0] + [s[0]] + (p[1] + [s[1]] + (p[2] + [s[2]] + (p[3] + [s[3]] + (p[4] + [s[4]] + p[5])))))
         == Some(mac)
  {
    OctetsDecide(mac, p);
    NoDashes(p[5]);
    OnePiece(p[5], ':');
    hide Pieces, ColonsForDashes, ParseHexOctet, MacOf;
    var r3 := p[3] + [s[3]] + (p[4] + [s[4]] + p[5]);
    MacPart(p[4], s[4], p[5]);
    MacPart(p[3], s[3], p[4] + [s[4]] + p[5]);
    MacPart(p[2], s[2], r3);
    MacPart(p[1], s[1], p[2] + [s[2]] + r3);
    MacPart(p[0], s[0], p[1] + [s[1]] + (p[2] + [s[2]] + r3));
    ConsSix(p);
  }

  lemma ConsSix(p: seq<string>)
    requires |p| == 6
    ensures [p[0]] + ([p[1]] + ([p[2]] + ([p[3]] + ([p[4]] + [p[5]])))) == p
  {}

  lemma OctetsDecide(mac: MacAddress, p: seq<string>)
    requires |p| == 6
    requires forall i :: 0 <= i < 6 ==>
               ParseHexOctet(p[i]) == Some([mac.m0, mac.m1, mac.m2, mac.m3, mac.m4, mac.m5][i])
    ensures MacOf(seq(|p|, i requires 0 <= i < |p| => ParseHexOctet(p[i]))) == Some(mac)
  {
    hide ParseHexOctet;
    var octets := [mac.m0, mac.m1, mac.m2, mac.m3, mac.m4, mac.m5];
    assert octets[0] == mac.m0 && octets[1] == mac.m1 && octets[2] == mac.m2;
    assert octets[3] == mac.m3 && octets[4] == mac.m4 && octets[5] == mac.m5;
  }

  lemma ColonsTogether(a: string, b: string, c: string, d: string, e: string, f: string)
    ensures a + ":" + (b + ":" + (c + ":" + (d + ":" + (e + ":" + f))))
         == a + ":" + b + ":" + c + ":" + d + ":" + e + ":" + f
  {
    assert a + ":" + (b + ":" + (c + ":" + (d + ":" + (e + ":" + f)))) == a + ":" + b + ":" + (c + ":" + (d + ":" + (e + ":" + f)));
    assert a + ":" + b + ":" + (c + ":" + (d + ":" + (e + ":" + f))) == a + ":" + b + ":" + c + ":" + (d + ":" + (e + ":" + f));
  }

  /** Every MAC address is read back from its printed form. */
  lemma MacRoundTrip(mac: MacAddress)
    ensures ParseMac(PrintMac(mac)) == Some(mac)
  {
    var p := [Hex(mac.m0), Hex(mac.m1), Hex(mac.m2), Hex(mac.m3), Hex(mac.m4), Hex(mac.m5)];
    HexRoundTrip(mac.m0);
    HexRoundTrip(mac.m1);
    HexRoundTrip(mac.m2);
    HexRoundTrip(mac.m3);
    HexRoundTrip(mac.m4);
    HexRoundTrip(mac.m5);
    hide Hex, ParseMac, ParseHexOctet;
    MacForms(mac, p, [':', ':', ':', ':', ':']);
    ColonsTogether(p[0], p[1], p[2], p[3], p[4], p[5]);
  }
}
