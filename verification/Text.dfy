/** Strings as Rust handles them: substring search, lines, trimming, words, and the UTF-8
    decoders. Bytes on the wire are strings too, one character per octet. */
module Text {
  import opened Basics

  // ---------------------------------------------------------------------------------------
  // Search
  // ---------------------------------------------------------------------------------------

  lemma Assoc(a: string, b: string, c: string, d: string)
    ensures a + (b + c + d) == a + b + c + d == a + b + (c + d)
  {}

  predicate At(s: string, p: string, k: int) {
    0 <= k && k + |p| <= |s| && s[k..k + |p|] == p
  }

  lemma AtSuffix(a: string, b: string, p: string, j: int)
    requires j >= |a|
    ensures At(a + b, p, j) == At(b, p, j - |a|)
  {
    if j + |p| <= |a + b| {
      assert (a + b)[j..j + |p|] == b[j - |a|..j - |a| + |p|];
    }
  }

  /** The first occurrence of `p`. */
  function Find(s: string, p: string): (r: Option<nat>)
    ensures r.Some? ==> At(s, p, r.value) && forall j :: 0 <= j < r.value ==> !At(s, p, j)
    ensures r.None? ==> forall j :: !At(s, p, j)
  {
    if p <= s then
      assert s[0..0 + |p|] == p;
      Some(0)
    else if s == "" then None
    else
      assert forall j :: j > 0 ==> At(s, p, j) == At(s[1..], p, j - 1) by {
        forall j: int | j > 0
          ensures At(s, p, j) == At(s[1..], p, j - 1)
        {
          AtSuffix([s[0]], s[1..], p, j);
          assert [s[0]] + s[1..] == s;
        }
      }
      assert !At(s, p, 0);
      match Find(s[1..], p)
      case Some(k) => Some(k + 1)
      case None => None
  }

  predicate Contains(s: string, p: string) { Find(s, p).Some? }

  function SplitOnce(s: string, p: string): Option<(string, string)> {
    match Find(s, p)
    case Some(k) => Some((s[..k], s[k + |p|..]))
    case None => None
  }

  lemma FindIs(s: string, p: string, k: nat)
    requires At(s, p, k) && forall j :: 0 <= j < k ==> !At(s, p, j)
    ensures Find(s, p) == Some(k)
  {}

  lemma AtChars(s: string, p: string, k: nat, i: nat)
    requires i < |p|
    ensures At(s, p, k) ==> s[k + i] == p[i]
  {
    if At(s, p, k) {
      assert s[k + i] == s[k..k + |p|][i];
    }
  }

  /** Adding text on either side keeps what a text contains. */
  lemma ContainsGrows(a: string, s: string, b: string, p: string)
    requires Contains(s, p)
    ensures Contains(a + s, p) && Contains(s + b, p)
  {
    var k := Find(s, p).value;
    assert (s + b)[k..k + |p|] == s[k..k + |p|];
    assert At(s + b, p, k);
    assert (a + s)[|a| + k..|a| + k + |p|] == s[k..k + |p|];
    assert At(a + s, p, |a| + k);
  }

  lemma ContainsItself(p: string)
    ensures Contains(p, p)
  {
    assert At(p, p, 0);
  }

  /** A text without some character of `p` does not contain `p`. */
  lemma LacksChar(s: string, p: string, i: nat)
    requires i < |p| && p[i] !in s
    ensures !Contains(s, p)
  {
    if Contains(s, p) {
      AtChars(s, p, Find(s, p).value, i);
      assert false;
    }
  }

  lemma AtPrefix(s: string, p: string, n: nat, j: int)
    requires n <= |s|
    ensures At(s[..n], p, j) == (At(s, p, j) && j + |p| <= n)
  {
    if 0 <= j && j + |p| <= n {
      assert s[..n][j..j + |p|] == s[j..j + |p|];
    }
  }

  /** No occurrence of `p` starts inside `a`, so the search goes on after it. */
  lemma FindSkips(a: string, b: string, p: string)
    requires forall j :: 0 <= j < |a| ==> !At(a + b, p, j)
    ensures Find(a + b, p) == match Find(b, p) case Some(k) => Some(|a| + k) case None => None
  {
    hide At, Find;
    var s := a + b;
    if Find(b, p).Some? {
      var k := Find(b, p).value;
      AtSuffix(a, b, p, |a| + k);
      assert At(s, p, |a| + k);
      forall j | 0 <= j < |a| + k
        ensures !At(s, p, j)
      {
        if j >= |a| {
          AtSuffix(a, b, p, j);
        }
      }
      FindIs(s, p, |a| + k);
    } else if Find(s, p).Some? {
      AtSuffix(a, b, p, Find(s, p).value);
      assert false;
    }
  }

  lemma SkipWithoutFirst(a: string, b: string, p: string)
    requires p != "" && p[0] !in a
    ensures Find(a + b, p) == match Find(b, p) case Some(k) => Some(|a| + k) case None => None
  {
    forall j | 0 <= j < |a|
      ensures !At(a + b, p, j)
    {
      AtChars(a + b, p, j, 0);
    }
    FindSkips(a, b, p);
  }

  lemma SkipWithoutSecond(a: string, b: string, p: string)
    requires |p| > 1 && p[1] !in a && (a != "" ==> a[|a| - 1] != p[0])
    ensures Find(a + b, p) == match Find(b, p) case Some(k) => Some(|a| + k) case None => None
  {
    forall j | 0 <= j < |a|
      ensures !At(a + b, p, j)
    {
      AtChars(a + b, p, j, 0);
      AtChars(a + b, p, j, 1);
    }
    FindSkips(a, b, p);
  }

  /** Only the first character of `a` could start an occurrence, and the i-th one differs. */
  lemma SkipMismatch(a: string, b: string, p: string, i: nat)
    requires i < |p| && i < |a| && a[i] != p[i] && p[0] !in a[1..]
    ensures Find(a + b, p) == match Find(b, p) case Some(k) => Some(|a| + k) case None => None
  {
    forall j | 0 <= j < |a|
      ensures !At(a + b, p, j)
    {
      AtChars(a + b, p, j, if j == 0 then i else 0);
      assert j > 0 ==> a[j] == a[1..][j - 1];
    }
    FindSkips(a, b, p);
  }

  lemma FindHere(p: string, b: string)
    ensures Find(p + b, p) == Some(0)
  {
    assert At(p + b, p, 0);
  }

  /** In the first `n` characters the same first occurrence is found, once it is complete. */
  lemma FindInPrefix(s: string, p: string, n: nat)
    requires n <= |s| && Find(s, p).Some?
    ensures Find(s[..n], p) == if Find(s, p).value + |p| <= n then Find(s, p) else None
  {
    forall j
      ensures At(s[..n], p, j) == (At(s, p, j) && j + |p| <= n)
    {
      AtPrefix(s, p, n, j);
    }
    hide At;
  }

  lemma SplitOnceAt(a: string, p: string, b: string)
    requires Find(a + p + b, p) == Some(|a|)
    ensures SplitOnce(a + p + b, p) == Some((a, b))
  {
    assert (a + p + b)[..|a|] == a && (a + p + b)[|a| + |p|..] == b;
  }

  lemma SplitOnceMeans(s: string, p: string)
    requires SplitOnce(s, p).Some?
    ensures var (a, b) := SplitOnce(s, p).value; s == a + p + b && Find(s, p) == Some(|a|)
  {
    var k := Find(s, p).value;
    assert s == s[..k] + s[k..k + |p|] + s[k + |p|..];
  }

  lemma SplitOnceAtChar(a: string, c: char, b: string)
    requires c !in a
    ensures SplitOnce(a + [c] + b, [c]) == Some((a, b))
  {
    SkipWithoutFirst(a, [c] + b, [c]);
    FindHere([c], b);
    assert a + ([c] + b) == a + [c] + b;
    SplitOnceAt(a, [c], b);
  }

  lemma NothingToSplit(s: string, c: char)
    requires c !in s
    ensures SplitOnce(s, [c]) == None
  {
    LacksChar(s, [c], 0);
  }

  /** `str::split` at a character. */
  function Pieces(s: string, c: char): seq<string>
    decreases |s|
  {
    match SplitOnce(s, [c])
    case None => [s]
    case Some((first, rest)) => [first] + Pieces(rest, c)
  }

  /** The place of the first such character. */
  lemma {:induction false} FirstOf(s: string, c: char) returns (k: nat)
    requires c in s
    ensures k < |s| && s[k] == c && c !in s[..k]
  {
    if s[0] == c {
      k := 0;
    } else {
      assert s == [s[0]] + s[1..];
      k := FirstOf(s[1..], c);
      assert s[..k + 1] == [s[0]] + s[1..][..k];
      k := k + 1;
    }
  }

  lemma PiecesCons(first: string, c: char, rest: string)
    requires c !in first
    ensures Pieces(first + [c] + rest, c) == [first] + Pieces(rest, c)
  {
    SplitOnceAtChar(first, c, rest);
  }

  lemma OnePiece(s: string, c: char)
    requires c !in s
    ensures Pieces(s, c) == [s]
  {
    NothingToSplit(s, c);
  }

  // ---------------------------------------------------------------------------------------
  // Lines, trimming, words
  // ---------------------------------------------------------------------------------------

  function StripCr(s: string): string {
    if s != "" && s[|s| - 1] == '\r' then s[..|s| - 1] else s
  }

  /** `str::lines`: a line ends with a line feed and loses one carriage return before it; what
      follows the last line feed is a line if it is not empty. */
  function Lines(s: string): seq<string>
    decreases |s|
  {
    if s == "" then []
    else match Find(s, "\n")
      case None => [s]
      case Some(k) => [StripCr(s[..k])] + Lines(s[k + 1..])
  }

  lemma LinesLf(l: string, rest: string)
    requires '\n' !in l
    ensures Lines(l + "\n" + rest) == [StripCr(l)] + Lines(rest)
  {
    var s := l + "\n" + rest;
    assert l + ("\n" + rest) == s;
    SkipWithoutFirst(l, "\n" + rest, "\n");
    FindHere("\n", rest);
    assert s[..|l|] == l && s[|l| + 1..] == rest;
  }

  lemma LinesCrLf(l: string, rest: string)
    requires '\n' !in l
    ensures Lines(l + "\r\n" + rest) == [l] + Lines(rest)
  {
    LinesLf(l + "\r", rest);
    assert l + "\r" + "\n" + rest == l + "\r\n" + rest;
    assert StripCr(l + "\r") == l;
  }

  /** What follows the last line feed is a line exactly if there is anything. */
  lemma LastLine(l: string)
    requires '\n' !in l
    ensures Lines(l) == if l == "" then [] else [l]
  {
    LacksChar(l, "\n", 0);
  }

  /** Unicode White_Space. */
  predicate IsWhitespace(c: char) {
    var u := c as int;
    || 0x09 <= u <= 0x0D || u == 0x20 || u == 0x85 || u == 0xA0 || u == 0x1680 || 0x2000 <= u <= 0x200A
    || u == 0x2028 || u == 0x2029 || u == 0x202F || u == 0x205F || u == 0x3000
  }

  function TrimStart(s: string): string {
    if s != "" && IsWhitespace(s[0]) then TrimStart(s[1..]) else s
  }

  function TrimEnd(s: string): string {
    if s != "" && IsWhitespace(s[|s| - 1]) then TrimEnd(s[..|s| - 1]) else s
  }

  function Trim(s: string): string { TrimEnd(TrimStart(s)) }

  /** Neither end is whitespace. */
  predicate Trimmed(s: string) {
    s != "" ==> !IsWhitespace(s[0]) && !IsWhitespace(s[|s| - 1])
  }

  predicate Blank(s: string) { forall i :: 0 <= i < |s| ==> IsWhitespace(s[i]) }

  lemma {:induction false} TrimStartSkips(pad: string, s: string)
    requires Blank(pad) && (s != "" ==> !IsWhitespace(s[0]))
    ensures TrimStart(pad + s) == s
  {
    if pad == "" {
      assert pad + s == s;
    } else {
      assert (pad + s)[1..] == pad[1..] + s;
      TrimStartSkips(pad[1..], s);
    }
  }

  lemma {:induction false} TrimEndSkips(s: string, pad: string)
    requires Blank(pad) && (s != "" ==> !IsWhitespace(s[|s| - 1]))
    ensures TrimEnd(s + pad) == s
  {
    if pad == "" {
      assert s + pad == s;
    } else {
      assert (s + pad)[..|s + pad| - 1] == s + pad[..|pad| - 1];
      TrimEndSkips(s, pad[..|pad| - 1]);
    }
  }

  /** Trimming removes exactly the whitespace around a trimmed text. */
  lemma TrimSkips(before: string, s: string, after: string)
    requires Blank(before) && Blank(after) && Trimmed(s)
    ensures Trim(before + s + after) == s
  {
    if s == "" {
      TrimStartSkips(before + after, "");
      assert before + s + after == before + after + "";
    } else {
      assert before + (s + after) == before + s + after;
      TrimStartSkips(before, s + after);
      TrimEndSkips(s, after);
    }
  }

  lemma TrimPart(before: string, s: string, after: string, whole: string)
    requires Blank(before) && Blank(after) && Trimmed(s) && whole == before + s + after
    ensures Trim(whole) == s
  {
    hide Trim, Blank, Trimmed;
    TrimSkips(before, s, after);
  }

  lemma TrimIdentity(s: string)
    requires Trimmed(s)
    ensures Trim(s) == s
  {
    TrimSkips("", s, "");
    assert "" + s + "" == s;
  }

  function LowerChar(c: char): char {
    if 'A' <= c <= 'Z' then (c as int + 32) as char else c
  }

  /** `to_ascii_lowercase`. */
  function Lower(s: string): string { seq(|s|, i requires 0 <= i < |s| => LowerChar(s[i])) }

  const UPPER: string := "ABCDEFGHIJKLMNOPQRSTUVWXYZ"
  const LOWER: string := "abcdefghijklmnopqrstuvwxyz"

  lemma AlphabetsInOrder()
    ensures |UPPER| == |LOWER| == 26
    ensures forall i :: 0 <= i < 26 ==> UPPER[i] as int == 'A' as int + i
    ensures forall i :: 0 <= i < 26 ==> LOWER[i] as int == 'a' as int + i
    ensures forall c :: 'A' <= c <= 'Z' ==> c in UPPER
  {
    assert forall i :: 0 <= i < 26 ==> UPPER[i] as int == 'A' as int + i;
    forall c | 'A' <= c <= 'Z'
      ensures c in UPPER
    {
      assert UPPER[c as int - 'A' as int] == c;
    }
  }

  /** Each capital becomes the small letter at its place; nothing else changes. */
  lemma LowerMeans(s: string)
    ensures |Lower(s)| == |s|
    ensures forall i, k :: 0 <= i < |s| && 0 <= k < 26 && s[i] == UPPER[k] ==> Lower(s)[i] == LOWER[k]
    ensures forall i :: 0 <= i < |s| && s[i] !in UPPER ==> Lower(s)[i] == s[i]
  {
    AlphabetsInOrder();
    hide *;
    LowerAt(s);
  }

  lemma LowerAt(s: string)
    ensures |Lower(s)| == |s| && forall i :: 0 <= i < |s| ==>
      Lower(s)[i] == if 'A' <= s[i] <= 'Z' then (s[i] as int + 32) as char else s[i]
  {}

  /** The position of the first whitespace character. */
  function WordEnd(s: string): (k: nat)
    ensures k <= |s| && (forall i :: 0 <= i < k ==> !IsWhitespace(s[i])) && (k < |s| ==> IsWhitespace(s[k]))
  {
    if s == "" || IsWhitespace(s[0]) then 0 else 1 + WordEnd(s[1..])
  }

  lemma {:induction false} TrimStartShrinks(s: string)
    ensures |TrimStart(s)| <= |s| && (TrimStart(s) != "" ==> !IsWhitespace(TrimStart(s)[0]))
  {
    if s != "" && IsWhitespace(s[0]) {
      TrimStartShrinks(s[1..]);
    }
  }

  /** `split_whitespace`. */
  function Words(s: string): seq<string>
    decreases |s|
  {
    TrimStartShrinks(s);
    var t := TrimStart(s);
    if t == "" then [] else [t[..WordEnd(t)]] + Words(t[WordEnd(t)..])
  }

  predicate IsWord(s: string) { s != "" && forall i :: 0 <= i < |s| ==> !IsWhitespace(s[i]) }

  lemma WordEndIs(w: string, rest: string)
    requires IsWord(w) && (rest != "" ==> IsWhitespace(rest[0]))
    ensures WordEnd(w + rest) == |w|
  {
    var t := w + rest;
    assert forall i :: 0 <= i < |w| ==> t[i] == w[i];
    assert rest != "" ==> t[|w|] == rest[0];
  }

  lemma WordsCons(w: string, rest: string)
    requires IsWord(w) && (rest != "" ==> IsWhitespace(rest[0]))
    ensures Words(w + rest) == [w] + Words(rest)
  {
    var t := w + rest;
    WordEndIs(w, rest);
    assert t[0] == w[0];
    assert t[..|w|] == w && t[|w|..] == rest;
  }

  lemma WordsSkip(c: char, s: string)
    requires IsWhitespace(c)
    ensures Words([c] + s) == Words(s)
  {
    assert ([c] + s)[1..] == s;
  }

  // ---------------------------------------------------------------------------------------
  // UTF-8 (RFC 3629)
  // ---------------------------------------------------------------------------------------

  predicate IsAscii(c: char) { c as int < 0x80 }

  predicate AllAscii(s: string) { forall i :: 0 <= i < |s| ==> IsAscii(s[i]) }

  const REPLACEMENT: char := '\U{FFFD}'

  predicate Continuation(c: char) { 0x80 <= c as int <= 0xBF }

  /** The length of a sequence with this first octet; 0 if there is none. */
  function Need(c: char): nat {
    var u := c as int;
    if u < 0x80 then 1
    else if 0xC2 <= u <= 0xDF then 2
    else if 0xE0 <= u <= 0xEF then 3
    else if 0xF0 <= u <= 0xF4 then 4
    else 0
  }

  predicate SecondOk(first: char, second: char) {
    && Continuation(second)
    && (first as int == 0xE0 ==> second as int >= 0xA0)
    && (first as int == 0xED ==> second as int <= 0x9F)
    && (first as int == 0xF0 ==> second as int >= 0x90)
    && (first as int == 0xF4 ==> second as int <= 0x8F)
  }

  /** How many octets of a non-empty text begin a well-formed sequence, at least one. */
  function Run(b: string): (n: nat)
    requires b != ""
    ensures 1 <= n <= |b| && n <= Max(1, Need(b[0]))
    ensures forall i :: 0 < i < n ==> Continuation(b[i])
    ensures n > 1 ==> SecondOk(b[0], b[1])
  {
    if Need(b[0]) <= 1 || |b| < 2 || !SecondOk(b[0], b[1]) then 1
    else if Need(b[0]) == 2 || |b| < 3 || !Continuation(b[2]) then 2
    else if Need(b[0]) == 3 || |b| < 4 || !Continuation(b[3]) then 3
    else 4
  }

  predicate WellFormed(b: string)
    requires b != ""
  {
    Run(b) == Need(b[0])
  }

  /** The character a well-formed text starts with. */
  function First(b: string): (c: char)
    requires b != "" && WellFormed(b)
    ensures IsAscii(c) <==> Need(b[0]) == 1
    ensures IsAscii(c) ==> c == b[0]
  {
    var u := b[0] as int;
    if Need(b[0]) == 1 then b[0]
    else if Need(b[0]) == 2 then ((u - 0xC0) * 0x40 + Low(b[1])) as char
    else if Need(b[0]) == 3 then ((u - 0xE0) * 0x1000 + Low(b[1]) * 0x40 + Low(b[2])) as char
    else ((u - 0xF0) * 0x4_0000 + Low(b[1]) * 0x1000 + Low(b[2]) * 0x40 + Low(b[3])) as char
  }

  function Low(c: char): nat
    requires Continuation(c)
  {
    c as int - 0x80
  }

  /** `from_utf8_lossy`: every maximal ill-formed part becomes one replacement character. */
  function Lossy(b: string): string
    decreases |b|
  {
    if b == "" then ""
    else [if WellFormed(b) then First(b) else REPLACEMENT] + Lossy(b[Run(b)..])
  }

  /** `from_utf8`. */
  function Strict(b: string): Option<string>
    decreases |b|
  {
    if b == "" then Some("")
    else if !WellFormed(b) then None
    else match Strict(b[Run(b)..])
      case None => None
      case Some(rest) => Some([First(b)] + rest)
  }

  lemma {:induction false} AsciiIsItself(s: string)
    requires AllAscii(s)
    ensures Lossy(s) == s && Strict(s) == Some(s)
  {
    if s != "" {
      AsciiIsItself(s[1..]);
      assert s == [s[0]] + s[1..];
    }
  }

  /** What follows an ASCII octet does not change how the text before it is decoded. */
  lemma RunStopsAtAscii(a: string, c: char, b: string)
    requires a != "" && IsAscii(c)
    ensures Run(a + [c] + b) == Run(a) && WellFormed(a + [c] + b) == WellFormed(a)
    ensures WellFormed(a) ==> First(a + [c] + b) == First(a)
  {
    var s := a + [c] + b;
    assert s[0] == a[0] && s[|a|] == c;
    assert |a| > 1 ==> s[1] == a[1];
    assert |a| > 2 ==> s[2] == a[2];
    assert |a| > 3 ==> s[3] == a[3];
  }

  lemma LossyStep(b: string)
    requires b != ""
    ensures Lossy(b) == [if WellFormed(b) then First(b) else REPLACEMENT] + Lossy(b[Run(b)..])
  {}

  /** Strict decoding of a text and one more ASCII octet. */
  lemma {:induction false} StrictAppends(a: string, c: char)
    requires IsAscii(c)
    ensures Strict(a + [c]) == match Strict(a) case Some(t) => Some(t + [c]) case None => None
    decreases |a|
  {
    var s := a + [c];
    if a == "" {
      AsciiIsItself([c]);
      assert s == [c] && "" + [c] == [c];
    } else {
      RunStopsAtAscii(a, c, "");
      assert a + [c] + "" == s;
      hide Run, First, WellFormed, IsAscii;
      StrictStep(a);
      StrictStep(s);
      var tail := a[Run(a)..];
      assert s[Run(a)..] == tail + [c];
      StrictAppends(tail, c);
      if WellFormed(a) && Strict(tail).Some? {
        assert [First(a)] + (Strict(tail).value + [c]) == [First(a)] + Strict(tail).value + [c];
      }
    }
  }

  lemma StrictStep(b: string)
    requires b != ""
    ensures Strict(b) == if !WellFormed(b) then None
                         else match Strict(b[Run(b)..])
                           case None => None
                           case Some(rest) => Some([First(b)] + rest)
  {}

  lemma LossyAsciiFirst(c: char, b: string)
    requires IsAscii(c)
    ensures Lossy([c] + b) == [c] + Lossy(b)
  {
    var s := [c] + b;
    LossyStep(s);
    assert Run(s) == 1 && First(s) == c;
    assert s[1..] == b;
  }

  lemma DropFront(a: string, c: char, b: string, n: nat)
    requires n <= |a|
    ensures (a + [c] + b)[n..] == a[n..] + [c] + b
  {}

  /** Decoding is split by any ASCII octet. */
  lemma {:induction false} LossySplits(a: string, c: char, b: string)
    requires IsAscii(c)
    ensures Lossy(a + [c] + b) == Lossy(a) + [c] + Lossy(b)
    decreases |a|
  {
    if a == "" {
      assert Lossy(a) == "";
      hide Lossy;
      LossyAsciiFirst(c, b);
      assert a + [c] + b == [c] + b;
    } else {
      hide Lossy, Run, First, WellFormed, IsAscii;
      LossyStep(a);
      LossyStep(a + [c] + b);
      RunStopsAtAscii(a, c, b);
      DropFront(a, c, b, Run(a));
      var tail := a[Run(a)..];
      LossySplits(tail, c, b);
      Assoc([if WellFormed(a) then First(a) else REPLACEMENT], Lossy(tail), [c], Lossy(b));
    }
  }

  /** The ASCII characters of the decoded text are the ASCII octets. */
  lemma {:induction false} LossyKeepsAscii(s: string, c: char)
    requires IsAscii(c)
    ensures c in Lossy(s) <==> c in s
    decreases |s|
  {
    if s != "" {
      var n := Run(s);
      LossyKeepsAscii(s[n..], c);
      assert s == [s[0]] + s[1..n] + s[n..];
      assert c !in s[1..n] by {
        assert forall i :: 0 < i < n ==> s[1..n][i - 1] == s[i];
      }
    }
  }

  /** The octets of a character (section 3 of RFC 3629). */
  function EncodeChar(c: char): string {
    var u := c as int;
    if u < 0x80 then [c]
    else if u < 0x800 then [(0xC0 + u / 0x40) as char, (0x80 + u % 0x40) as char]
    else if u < 0x1_0000 then
      [(0xE0 + u / 0x1000) as char, (0x80 + u / 0x40 % 0x40) as char, (0x80 + u % 0x40) as char]
    else
      [(0xF0 + u / 0x4_0000) as char, (0x80 + u / 0x1000 % 0x40) as char, (0x80 + u / 0x40 % 0x40) as char,
       (0x80 + u % 0x40) as char]
  }

  function Encode(text: string): string {
    if text == "" then "" else EncodeChar(text[0]) + Encode(text[1..])
  }

  /** An encoded character is a well-formed sequence, is decoded to itself, and its length does not
      depend on what follows. */
  lemma EncodedIsWellFormed(c: char, rest: string)
    ensures var b := EncodeChar(c) + rest;
      b != "" && WellFormed(b) && First(b) == c && Run(b) == |EncodeChar(c)|
  {
    var e := EncodeChar(c);
    var b := e + rest;
    assert b[0] == e[0];
    if |e| == 2 {
      assert b[1] == e[1];
    } else if |e| == 3 {
      assert b[1] == e[1] && b[2] == e[2];
      ThreeOctets(c, b);
    } else if |e| == 4 {
      assert b[1] == e[1] && b[2] == e[2] && b[3] == e[3];
      FourOctets(c, b);
    }
  }

  lemma ThreeOctets(c: char, b: string)
    requires 0x800 <= c as int < 0x1_0000 && |b| >= 3
    requires b[0] == EncodeChar(c)[0] && b[1] == EncodeChar(c)[1] && b[2] == EncodeChar(c)[2]
    ensures WellFormed(b) && First(b) == c && Run(b) == 3
  {
    var u := c as int;
    Divisions(u);
    assert Need(b[0]) == 3 && SecondOk(b[0], b[1]) && Continuation(b[2]);
  }

  lemma FourOctets(c: char, b: string)
    requires c as int >= 0x1_0000 && |b| >= 4
    requires b[0] == EncodeChar(c)[0] && b[1] == EncodeChar(c)[1] && b[2] == EncodeChar(c)[2] && b[3] == EncodeChar(c)[3]
    ensures WellFormed(b) && First(b) == c && Run(b) == 4
  {
    var u := c as int;
    Divisions(u);
    assert Need(b[0]) == 4 && SecondOk(b[0], b[1]) && Continuation(b[2]) && Continuation(b[3]);
  }

  lemma SixBits(high: nat, low: nat)
    requires low < 0x40
    ensures (high * 0x40 + low) / 0x40 == high && (high * 0x40 + low) % 0x40 == low
  {}

  lemma Divisions(u: nat)
    ensures u / 0x1000 == u / 0x40 / 0x40 && u / 0x4_0000 == u / 0x1000 / 0x40
  {}

  lemma ThreeIsEncoded(b: string)
    requires b != "" && WellFormed(b) && Need(b[0]) == 3
    ensures EncodeChar(First(b)) == b[..3]
  {
    var u := First(b) as int;
    var high := (b[0] as int - 0xE0) * 0x40 + Low(b[1]);
    assert u == high * 0x40 + Low(b[2]);
    SixBits(high, Low(b[2]));
    SixBits(b[0] as int - 0xE0, Low(b[1]));
    Divisions(u);
  }

  lemma FourIsEncoded(b: string)
    requires b != "" && WellFormed(b) && Need(b[0]) == 4
    ensures EncodeChar(First(b)) == b[..4]
  {
    var u := First(b) as int;
    var top := (b[0] as int - 0xF0) * 0x40 + Low(b[1]);
    var high := top * 0x40 + Low(b[2]);
    assert u == high * 0x40 + Low(b[3]);
    SixBits(high, Low(b[3]));
    SixBits(top, Low(b[2]));
    SixBits(b[0] as int - 0xF0, Low(b[1]));
    Divisions(u);
  }

  lemma WellFormedIsEncoded(b: string)
    requires b != "" && WellFormed(b)
    ensures EncodeChar(First(b)) == b[..Run(b)]
  {
    if Need(b[0]) == 4 {
      FourIsEncoded(b);
    } else if Need(b[0]) == 3 {
      ThreeIsEncoded(b);
    } else if Need(b[0]) == 2 {
      SixBits(b[0] as int - 0xC0, Low(b[1]));
    }
  }

  /** A text is decoded from its encoding and from nothing else. */
  lemma {:induction false} StrictIff(b: string, text: string)
    ensures Strict(b) == Some(text) <==> b == Encode(text)
    decreases |b| + |text|
  {
    hide Run, First, WellFormed, EncodeChar;
    if b != "" && WellFormed(b) {
      WellFormedIsEncoded(b);
      if text != "" {
        StrictIff(b[Run(b)..], text[1..]);
        if Strict(b) == Some(text) {
          assert text[1..] == Strict(b[Run(b)..]).value;
          assert b == b[..Run(b)] + b[Run(b)..];
        }
      }
    }
    if text != "" && b == Encode(text) {
      var rest := Encode(text[1..]);
      EncodedIsWellFormed(text[0], rest);
      assert b[Run(b)..] == rest;
      assert [text[0]] + text[1..] == text;
    }
  }

  /** The two decoders agree on what is UTF-8. */
  lemma {:induction false} LossyIsStrict(b: string)
    requires Strict(b).Some?
    ensures Lossy(b) == Strict(b).value
    decreases |b|
  {
    hide Run, First, WellFormed;
    if b != "" {
      LossyIsStrict(b[Run(b)..]);
    }
  }
}
