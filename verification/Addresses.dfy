/**
 The addresses of data connections: IPv4 literals and ports in the forms of PORT, PASV, EPRT and EPSV, their
 printers and parsers, and the filter for addresses a peer may not redirect the proxy to.
 */
module Addresses {
  import opened GoStrings
  import opened Options

  // ---------------------------------------------------------------- IPv4 literals

  /** One field of a dotted quad as net.ParseIP takes it: a number up to 255 without leading zeros. */
  predicate IsOctet(f: string) {
    1 <= |f| <= 3 && AllDigits(f) && (|f| > 1 ==> f[0] != '0') && Value(f) <= 255
  }

  predicate AllOctets(fields: seq<string>) {
    forall i :: 0 <= i < |fields| ==> IsOctet(fields[i])
  }

  predicate IsBytes(ip: seq<nat>) {
    |ip| == 4 && ip[0] <= 255 && ip[1] <= 255 && ip[2] <= 255 && ip[3] <= 255
  }

  /** The four bytes of an IPv4 literal; None for any other string. */
  function ParseIP(s: string): (r: Option<seq<nat>>)
    ensures r.Some? ==> IsBytes(r.value)
  {
    var f := Split(s, '.');
    if |f| == 4 && AllOctets(f) then Some([Value(f[0]), Value(f[1]), Value(f[2]), Value(f[3])]) else None
  }

  predicate IsLiteral(ip: string) {
    ParseIP(ip).Some?
  }

  predicate IsPort(port: int) {
    1 <= port <= 65535
  }

  // ---------------------------------------------------------------- PORT and PASV

  /** h1,h2,h3,h4,p1,p2 as handleDATA and the PASV rewriting print it. */
  function PrintAddr(ip: string, port: nat): string {
    Replace(ip, '.', ',') + "," + Itoa(port / 256) + "," + Itoa(port % 256)
  }

  /** The two decimal bytes of a port, computed in 64-bit arithmetic from whatever Atoi makes of them. */
  function PortOf(high: string, low: string): int {
    Wrap64(Wrap64(Atoi(high).0 * 256) + Atoi(low).0)
  }

  /** parseLineToAddr: the address in dotted form and the port in decimal; None is "invalid data address". */
  function ParseLineToAddr(line: string): Option<(string, string)> {
    var addr := Split(line, ',');
    if |addr| != 6 then None
    else
      var ip := Join(addr[0..4], '.');
      var port := PortOf(addr[4], addr[5]);
      if !IsLiteral(ip) then None
      else if port <= 0 || port > 65535 then None
      else Some((ip, Itoa(port)))
  }

  lemma DigitsAreFree(s: string, c: char)
    requires AllDigits(s) && !IsDigit(c)
    ensures c !in s
  {
  }

  /** A literal has neither commas nor any byte but digits and dots. */
  lemma LiteralBytes(ip: string)
    requires IsLiteral(ip)
    ensures forall i :: 0 <= i < |ip| ==> IsDigit(ip[i]) || ip[i] == '.'
  {
    JoinSplit(ip, '.');
    JoinBytes(Split(ip, '.'));
  }

  lemma {:induction false} JoinBytes(fields: seq<string>)
    requires AllOctets(fields)
    ensures forall i :: 0 <= i < |Join(fields, '.')| ==> IsDigit(Join(fields, '.')[i]) || Join(fields, '.')[i] == '.'
  {
    if |fields| > 1 {
      JoinBytes(fields[1..]);
    }
  }

  /** The fields of an address printed before any two texts. */
  lemma FieldsOf(ip: string, high: string, low: string)
    requires IsLiteral(ip) && ',' !in high && ',' !in low
    ensures Split(Replace(ip, '.', ',') + "," + high + "," + low, ',') == Split(ip, '.') + [high, low]
    ensures |Split(ip, '.')| == 4 && Join(Split(ip, '.'), '.') == ip
  {
    hide Split;
    LiteralBytes(ip);
    var h := Replace(ip, '.', ',');
    SplitReplace(ip, '.', ',');
    SplitWhole(high, ',');
    SplitWhole(low, ',');
    SplitAppend(high, ',', low);
    SplitAppend(h, ',', high + [','] + low);
    assert h + "," + high + "," + low == h + [','] + (high + [','] + low);
    assert [high] + [low] == [high, low];
    JoinSplit(ip, '.');
  }

  /** The six fields of a printed address. */
  lemma PrintedFields(ip: string, port: nat)
    requires IsLiteral(ip)
    ensures Split(PrintAddr(ip, port), ',') == Split(ip, '.') + [Itoa(port / 256), Itoa(port % 256)]
  {
    hide Split;
    DigitsAreFree(Itoa(port / 256), ',');
    DigitsAreFree(Itoa(port % 256), ',');
    FieldsOf(ip, Itoa(port / 256), Itoa(port % 256));
  }

  lemma PortOfPrinted(port: nat)
    requires port <= 65535
    ensures PortOf(Itoa(port / 256), Itoa(port % 256)) == port
  {
    hide Atoi, Itoa;
    AtoiItoa(port / 256);
    AtoiItoa(port % 256);
  }

  /** The PORT and PASV printers are inverted by parseLineToAddr. */
  lemma ParsePrinted(ip: string, port: nat)
    requires IsLiteral(ip) && IsPort(port)
    ensures ParseLineToAddr(PrintAddr(ip, port)) == Some((ip, Itoa(port)))
  {
    hide PortOf, Itoa, Split;
    PrintedFields(ip, port);
    var addr := Split(PrintAddr(ip, port), ',');
    assert addr[0..4] == Split(ip, '.');
    JoinSplit(ip, '.');
    PortOfPrinted(port);
  }

  /** Whatever parseLineToAddr accepts is a literal and a port in range, and survives printing and reparsing. */
  lemma AcceptedSurvives(line: string)
    requires ParseLineToAddr(line).Some?
    ensures var (ip, port) := ParseLineToAddr(line).value;
            && IsLiteral(ip) && Atoi(port).1 && IsPort(Atoi(port).0)
            && ParseLineToAddr(PrintAddr(ip, Atoi(port).0)) == Some((ip, port))
  {
    var addr := Split(line, ',');
    var n := PortOf(addr[4], addr[5]);
    AtoiItoa(n);
    ParsePrinted(Join(addr[0..4], '.'), n);
  }

  const WORD64: nat := 0x1_0000_0000_0000_0000

  /** What the two fields of a port amount to in arithmetic modulo 2^64. */
  function PortSum(high: string, low: string): nat {
    (256 * Atoi(high).0 + Atoi(low).0) % WORD64
  }

  predicate IsByteText(f: string) {
    Atoi(f).1 && 0 <= Atoi(f).0 <= 255
  }

  lemma WrapTwice(x: int, y: int)
    ensures Wrap64(Wrap64(x) + y) == Wrap64(x + y)
  {
  }

  lemma WrapToPort(x: int)
    ensures IsPort(Wrap64(x)) <==> IsPort(x % WORD64)
    ensures IsPort(Wrap64(x)) ==> Wrap64(x) == x % WORD64
  {
  }

  /**
   Exactly which lines parseLineToAddr accepts. Two fields that are bytes, as RFC 959 wants them, make every port
   but 0; any other pair, also one that is no number at all, is accepted just when its sum modulo 2^64 is a port.
   */
  lemma AcceptedIff(line: string)
    ensures var f := Split(line, ',');
            if |f| != 6 then ParseLineToAddr(line).None?
            else
              var ip, n := Join(f[0..4], '.'), PortSum(f[4], f[5]);
              && ParseLineToAddr(line) == (if IsLiteral(ip) && IsPort(n) then Some((ip, Itoa(n))) else None)
              && (IsByteText(f[4]) && IsByteText(f[5]) ==>
                    n == 256 * Atoi(f[4]).0 + Atoi(f[5]).0 && (IsPort(n) <==> n > 0))
  {
    hide Split, IsLiteral, Atoi, Itoa, Wrap64;
    var f := Split(line, ',');
    if |f| == 6 {
      var h, l := Atoi(f[4]).0, Atoi(f[5]).0;
      WrapTwice(h * 256, l);
      WrapToPort(256 * h + l);
    }
  }

  lemma PairAccepted(ip: string, high: string, low: string)
    requires IsLiteral(ip) && ',' !in high && ',' !in low && IsPort(PortSum(high, low))
    ensures ParseLineToAddr(Replace(ip, '.', ',') + "," + high + "," + low) == Some((ip, Itoa(PortSum(high, low))))
  {
    hide Split, PortSum, ParseLineToAddr, IsLiteral;
    var line := Replace(ip, '.', ',') + "," + high + "," + low;
    FieldsOf(ip, high, low);
    AcceptedIff(line);
    assert Split(line, ',')[0..4] == Split(ip, '.');
  }

  lemma SmallNumbers()
    ensures Atoi("0") == (0, true) && Atoi("300") == (300, true) && Atoi("x") == (0, false) && Atoi("-1") == (-1, true)
  {
    assert "300"[..2] == "30" && "30"[..1] == "3" && "-1"[1..] == "1";
    assert Value("3") == 3 && Value("30") == 30 && Value("300") == 300 && Value("1") == 1;
  }

  /**
   Behind every literal there are accepted pairs that are not bytes: one too large, one that is no number, a
   negative one, and one whose shift overflows 64 bits.
   */
  lemma StrangePairsAreAccepted(ip: string)
    requires IsLiteral(ip)
    ensures var quad := Replace(ip, '.', ',');
            && ParseLineToAddr(quad + "," + "0" + "," + "300") == Some((ip, Itoa(300)))
            && ParseLineToAddr(quad + "," + "x" + "," + "300") == Some((ip, Itoa(300)))
            && ParseLineToAddr(quad + "," + "-1" + "," + "300") == Some((ip, Itoa(44)))
            && ParseLineToAddr(quad + "," + Itoa(MAX_INT64) + "," + "300") == Some((ip, Itoa(44)))
  {
    hide ParseLineToAddr, IsLiteral, Itoa, Atoi;
    SmallNumbers();
    AtoiItoa(MAX_INT64);
    PairAccepted(ip, "0", "300");
    PairAccepted(ip, "x", "300");
    PairAccepted(ip, "-1", "300");
    PairAccepted(ip, Itoa(MAX_INT64), "300");
  }

  lemma JoinFour(a: string, b: string, c: string, d: string, x: char)
    ensures Join([a, b, c, d], x) == a + [x] + b + [x] + c + [x] + d
  {
    assert [a, b, c, d][1..] == [b, c, d] && [b, c, d][1..] == [c, d] && [c, d][1..] == [d];
    assert Join([c, d], x) == c + [x] + d;
    assert Join([b, c, d], x) == b + [x] + Join([c, d], x);
  }

  lemma DigitIsOctet(d: char)
    requires IsDigit(d)
    ensures IsOctet([d])
  {
    assert [d][..0] == [];
    assert Value([d]) == 10 * Value([]) + (d as nat - '0' as nat);
  }

  lemma FourDigits(a: char, b: char, c: char, d: char)
    requires IsDigit(a) && IsDigit(b) && IsDigit(c) && IsDigit(d)
    ensures IsLiteral([a, '.', b, '.', c, '.', d])
  {
    hide Split, Join;
    var fields := [[a], [b], [c], [d]];
    JoinFour([a], [b], [c], [d], '.');
    assert Join(fields, '.') == [a, '.', b, '.', c, '.', d];
    DigitIsOctet(a);
    DigitIsOctet(b);
    DigitIsOctet(c);
    DigitIsOctet(d);
    SplitJoin(fields, '.');
  }

  /** One such line as a client can send it. */
  lemma LargePortByteIsAccepted()
    ensures ParseLineToAddr("1,2,3,4,0,300") == Some(("1.2.3.4", Itoa(300)))
  {
    hide ParseLineToAddr, Itoa, IsLiteral;
    FourDigits('1', '2', '3', '4');
    assert Replace("1.2.3.4", '.', ',') == "1,2,3,4";
    StrangePairsAreAccepted("1.2.3.4");
    assert "1,2,3,4" + "," + "0" + "," + "300" == "1,2,3,4,0,300";
  }

  predicate HasArgument(line: string) {
    |Split(TrimCRLF(line), ' ')| > 1
  }

  /** What follows the first space of a PORT or EPRT command. */
  function Argument(line: string): string
    requires HasArgument(line)
  {
    Split(TrimCRLF(line), ' ')[1]
  }

  /** A word followed by one argument without spaces, as a command line. */
  lemma ArgumentOfLine(word: string, arg: string)
    requires word != [] && arg != [] && ' ' !in word && ' ' !in arg && !IsCRLF(word[0]) && !IsCRLF(arg[|arg| - 1])
    ensures Split(TrimCRLF(word + " " + arg + "\r\n"), ' ') == [word, arg]
  {
    var body := word + [' '] + arg;
    var line := word + " " + arg + "\r\n";
    assert line == body + "\r\n" && line[0] == word[0];
    TrimRightAll(body, "\r\n", IsCRLF);
    SplitAppend(word, ' ', arg);
    SplitWhole(word, ' ');
    SplitWhole(arg, ' ');
  }

  /** The PORT line the proxy sends is read back as the listener's address. */
  lemma PortLineParses(ip: string, port: nat)
    requires IsLiteral(ip) && IsPort(port)
    ensures var line := "PORT " + PrintAddr(ip, port) + "\r\n";
            HasArgument(line) && ParseLineToAddr(Argument(line)) == Some((ip, Itoa(port)))
  {
    hide PrintAddr, ParseLineToAddr, Split;
    var arg := PrintAddr(ip, port);
    PrintedBytes(ip, port);
    assert "PORT " + arg + "\r\n" == "PORT" + " " + arg + "\r\n";
    ArgumentOfLine("PORT", arg);
    ParsePrinted(ip, port);
  }

  /** A printed address consists of digits and commas. */
  lemma PrintedBytes(ip: string, port: nat)
    requires IsLiteral(ip)
    ensures PrintAddr(ip, port) != []
    ensures forall i :: 0 <= i < |PrintAddr(ip, port)| ==>
      IsDigit(PrintAddr(ip, port)[i]) || PrintAddr(ip, port)[i] == ','
  {
    LiteralBytes(ip);
  }

  // ---------------------------------------------------------------- the parenthesised replies

  /** The slice between the first '(' and the last ')' is not taken backwards, which would panic. */
  predicate Sliceable(line: string) {
    Index(line, '(') >= 0 && LastIndex(line, ')') >= 0 ==> Index(line, '(') < LastIndex(line, ')')
  }

  /** What stands between the first '(' and the last ')'; None when either is missing. */
  function Between(line: string): Option<string>
    requires Sliceable(line)
  {
    var start, end := Index(line, '('), LastIndex(line, ')');
    if start == -1 || end == -1 then None else Some(line[start + 1..end])
  }

  lemma BetweenIs(before: string, inside: string, after: string)
    requires '(' !in before && ')' !in after
    ensures var line := before + "(" + inside + ")" + after;
            && Index(line, '(') == |before| && LastIndex(line, ')') == |before| + 1 + |inside|
            && Between(line) == Some(inside)
  {
    var line := before + "(" + inside + ")" + after;
    forall k | 0 <= k < |before| ensures line[k] != '(' {
      assert line[k] == before[k] && before[k] in before;
    }
    IndexIs(line, '(', |before|);
    var e := |before| + 1 + |inside|;
    forall k | e < k < |line| ensures line[k] != ')' {
      assert line[k] == after[k - e - 1] && after[k - e - 1] in after;
    }
    LastIndexIs(line, ')', e);
    assert line[|before| + 1..e] == inside;
  }

  /** The reply to PASV as the proxy prints it. */
  function PasvReply(ip: string, port: nat): string {
    "227 Entering Passive Mode (" + PrintAddr(ip, port) + ").\r\n"
  }

  /** The reply to EPSV as the proxy prints it. */
  function EpsvReply(port: nat): string {
    "229 Entering Extended Passive Mode (|||" + Itoa(port) + "|).\r\n"
  }

  predicate IsBar(c: char) { c == '|' }

  /** The port text parseEPSVresponse stores; None is "invalid data address". */
  function ParseEpsvPort(inside: string): Option<string> {
    var text := Trim(inside, IsBar);
    if IsPort(Atoi(text).0) then Some(text) else None
  }

  lemma PasvReplyParses(ip: string, port: nat)
    requires IsLiteral(ip) && IsPort(port)
    ensures var line := PasvReply(ip, port);
            && 0 <= Index(line, '(') < LastIndex(line, ')')
            && Between(line) == Some(PrintAddr(ip, port))
            && ParseLineToAddr(Between(line).value) == Some((ip, Itoa(port)))
  {
    hide ParseLineToAddr, PrintAddr, Between, Index, LastIndex, IsLiteral;
    var before, after := "227 Entering Passive Mode ", ".\r\n";
    assert PasvReply(ip, port) == before + "(" + PrintAddr(ip, port) + ")" + after;
    BetweenIs(before, PrintAddr(ip, port), after);
    ParsePrinted(ip, port);
  }

  lemma BarsTrimmed(p: string)
    requires p != [] && AllDigits(p)
    ensures Trim("|||" + p + "|", IsBar) == p
  {
    assert "|||" + p + "|" == "|||" + (p + "|");
    SkipLeft("|||", p + "|", IsBar);
    TrimRightAll(p, "|", IsBar);
  }

  lemma EpsvReplyParses(port: nat)
    requires IsPort(port)
    ensures var line := EpsvReply(port);
            && 0 <= Index(line, '(') < LastIndex(line, ')')
            && Between(line).Some? && ParseEpsvPort(Between(line).value) == Some(Itoa(port))
  {
    var before, p, after := "229 Entering Extended Passive Mode ", Itoa(port), ".\r\n";
    var inside := "|||" + p + "|";
    assert EpsvReply(port) == before + "(" + inside + ")" + after;
    BetweenIs(before, inside, after);
    BarsTrimmed(p);
    AtoiItoa(port);
  }

  // ---------------------------------------------------------------- EPRT

  datatype EprtResult = EprtAddr(ip: string, port: string) | InvalidAddress | UnknownProtocol

  /** parseEPRTtoAddr; the port keeps the spelling the client gave it. */
  function ParseEPRTtoAddr(arg: string): EprtResult {
    var addr := Split(arg, '|');
    if |addr| != 5 then InvalidAddress
    else
      var (port, ok) := Atoi(addr[3]);
      if !ok || port <= 0 || port > 65535 then InvalidAddress
      else if addr[1] != "1" && addr[1] != "2" then UnknownProtocol
      else if !IsLiteral(addr[2]) then InvalidAddress
      else EprtAddr(addr[2], addr[3])
  }

  lemma JoinFive(a: string, b: string, c: string, d: string, e: string, x: char)
    ensures Join([a, b, c, d, e], x) == a + [x] + b + [x] + c + [x] + d + [x] + e
  {
    assert [a, b, c, d, e][1..] == [b, c, d, e] && [b, c, d, e][1..] == [c, d, e];
    assert [c, d, e][1..] == [d, e] && [d, e][1..] == [e];
    assert Join([d, e], x) == d + [x] + e;
    assert Join([c, d, e], x) == c + [x] + Join([d, e], x);
    assert Join([b, c, d, e], x) == b + [x] + Join([c, d, e], x);
  }

  lemma EprtParses(ip: string, port: nat)
    requires IsLiteral(ip) && IsPort(port)
    ensures ParseEPRTtoAddr("|1|" + ip + "|" + Itoa(port) + "|") == EprtAddr(ip, Itoa(port))
  {
    LiteralBytes(ip);
    var p := Itoa(port);
    DigitsAreFree(p, '|');
    var fields := ["", "1", ip, p, ""];
    JoinFive("", "1", ip, p, "", '|');
    assert "|1|" + ip + "|" + p + "|" == Join(fields, '|');
    SplitJoin(fields, '|');
    AtoiItoa(port);
  }

  // ---------------------------------------------------------------- public addresses

  /** isPublicIP on the four bytes of an IPv4 address. */
  predicate IsPublicIP(ip: seq<nat>)
    requires IsBytes(ip)
  {
    if ip[0] == 127 || (ip[0] == 224 && ip[1] == 0 && ip[2] == 0) || (ip[0] == 169 && ip[1] == 254) then false
    else if ip[0] == 10 then false
    else if ip[0] == 172 && 16 <= ip[1] <= 31 then false
    else if ip[0] == 192 && ip[1] == 168 then false
    else true
  }

  function Number(ip: seq<nat>): nat
    requires IsBytes(ip)
  {
    ((ip[0] * 256 + ip[1]) * 256 + ip[2]) * 256 + ip[3]
  }

  /** n lies in the block of addresses from the first to the last. */
  predicate InBlock(n: nat, first: seq<nat>, last: seq<nat>)
    requires IsBytes(first) && IsBytes(last)
  {
    Number(first) <= n <= Number(last)
  }

  /** The byte tests are membership tests of six intervals of 32-bit addresses. */
  lemma PublicIffOutside(ip: seq<nat>)
    requires IsBytes(ip)
    ensures var n := Number(ip);
            !IsPublicIP(ip) <==>
              || InBlock(n, [10, 0, 0, 0], [10, 255, 255, 255])
              || InBlock(n, [172, 16, 0, 0], [172, 31, 255, 255])
              || InBlock(n, [192, 168, 0, 0], [192, 168, 255, 255])
              || InBlock(n, [127, 0, 0, 0], [127, 255, 255, 255])
              || InBlock(n, [169, 254, 0, 0], [169, 254, 255, 255])
              || InBlock(n, [224, 0, 0, 0], [224, 0, 0, 255])
  {
    var a, b, c, d := ip[0], ip[1], ip[2], ip[3];
    assert Number(ip) == a * 0x100_0000 + b * 0x1_0000 + c * 0x100 + d;
  }

  /** isPublicIP(net.ParseIP(text)) */
  predicate IsPublicText(text: string) {
    ParseIP(text).Some? && IsPublicIP(ParseIP(text).value)
  }

  // ---------------------------------------------------------------- what the other two parsers accept

  /** The digits between the bars of a 229 are taken, as they are spelt, exactly when they denote a port. */
  lemma EpsvPortIff(p: string)
    requires p != [] && AllDigits(p)
    ensures ParseEpsvPort("|||" + p + "|") == if IsPort(Value(p)) then Some(p) else None
  {
    BarsTrimmed(p);
    assert IsDigit(p[0]);
  }

  /** A 229 whose bars enclose no number is refused. */
  lemma EpsvNoNumber(p: string)
    requires !Atoi(Trim(p, IsBar)).1 && Atoi(Trim(p, IsBar)).0 == 0
    ensures ParseEpsvPort(p).None?
  {
  }

  /**
   Of an EPRT argument with four bars, first the port is checked, then the protocol, then the address: 1 and 2 are
   the known protocols of RFC 2428, and for both only an address literal is taken.
   */
  lemma EprtIff(proto: string, ip: string, port: string)
    requires '|' !in proto && '|' !in ip && '|' !in port
    ensures var r := ParseEPRTtoAddr("|" + proto + "|" + ip + "|" + port + "|");
            var portOk := Atoi(port).1 && IsPort(Atoi(port).0);
            && (r.UnknownProtocol? <==> portOk && proto != "1" && proto != "2")
            && (r.EprtAddr? <==> portOk && (proto == "1" || proto == "2") && IsLiteral(ip))
            && (r.EprtAddr? ==> r == EprtAddr(ip, port))
  {
    hide Atoi, IsLiteral;
    var fields := ["", proto, ip, port, ""];
    JoinFive("", proto, ip, port, "", '|');
    assert "|" + proto + "|" + ip + "|" + port + "|" == Join(fields, '|');
    SplitJoin(fields, '|');
  }

  /** Without exactly four bars an EPRT argument is no address. */
  lemma EprtNeedsFive(arg: string)
    requires |Split(arg, '|')| != 5
    ensures ParseEPRTtoAddr(arg) == InvalidAddress
  {
  }
  // ---------------------------------------------------------------- what a literal is

  lemma ShortItoa(n: nat)
    requires n <= 255
    ensures |Itoa(n)| <= 3
  {
    assert n / 10 < 26 && n / 10 / 10 < 3;
    assert |Itoa(n / 10 / 10)| == 1;
  }

  lemma OctetIff(f: string)
    ensures IsOctet(f) <==> f != [] && AllDigits(f) && Value(f) <= 255 && f == Itoa(Value(f))
  {
    if f != [] && AllDigits(f) && Value(f) <= 255 {
      if f == Itoa(Value(f)) {
        ShortItoa(Value(f));
      }
      if |f| > 1 ==> f[0] != '0' {
        ItoaOfValue(f);
      }
    }
  }

  function Dotted(ip: seq<nat>): string
    requires |ip| == 4
  {
    Itoa(ip[0]) + "." + Itoa(ip[1]) + "." + Itoa(ip[2]) + "." + Itoa(ip[3])
  }

  /** A text is read as four bytes exactly if it is their decimal form with dots, without leading zeros. */
  lemma ParseIPIff(s: string, ip: seq<nat>)
    ensures ParseIP(s) == Some(ip) <==> IsBytes(ip) && s == Dotted(ip)
  {
    hide Split, Itoa, Value;
    if IsBytes(ip) && s == Dotted(ip) {
      DottedParses(ip);
    }
    if ParseIP(s) == Some(ip) {
      var f := Split(s, '.');
      OctetIff(f[0]);
      OctetIff(f[1]);
      OctetIff(f[2]);
      OctetIff(f[3]);
      assert f == [Itoa(ip[0]), Itoa(ip[1]), Itoa(ip[2]), Itoa(ip[3])];
      JoinSplit(s, '.');
      JoinFour(f[0], f[1], f[2], f[3], '.');
    }
  }

  lemma DottedParses(ip: seq<nat>)
    requires IsBytes(ip)
    ensures ParseIP(Dotted(ip)) == Some(ip)
  {
    hide Split, Itoa, Value;
    var f := [Itoa(ip[0]), Itoa(ip[1]), Itoa(ip[2]), Itoa(ip[3])];
    OctetIff(f[0]);
    OctetIff(f[1]);
    OctetIff(f[2]);
    OctetIff(f[3]);
    JoinFour(f[0], f[1], f[2], f[3], '.');
    assert Dotted(ip) == Join(f, '.');
    DigitsAreFree(f[0], '.');
    DigitsAreFree(f[1], '.');
    DigitsAreFree(f[2], '.');
    DigitsAreFree(f[3], '.');
    SplitJoin(f, '.');
    assert ip == [ip[0], ip[1], ip[2], ip[3]];
  }
}
