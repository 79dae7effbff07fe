/**
 How the reader goroutine of startProxy cuts an origin's line stream into replies, and what that has to do
 with the replies of section 4.2 of RFC 959.
 */
module ReplyFraming {
  import opened GoStrings
  import opened Options
  import opened Sequences

  /** getCode(line)[0]; a fourth byte outside ASCII becomes a separator of two bytes. */
  function GetCode(line: string): string {
    if |line| < 4 then line
    else if 128 as char <= line[3] < 256 as char then FirstPart(TrimCRLF(line), Encoded(line[3]))
    else FirstField(TrimCRLF(line), line[3])
  }

  predicate Opens(line: string) {
    |line| >= 4 && line[3] == '-'
  }

  /** The test that ends a multi-line reply opened with `code`. */
  predicate Closes(code: string, line: string) {
    GetCode(line) == code && |line| >= 4 && line[3] == ' '
  }

  /** One reply: a line that opens nothing, or an opening line up to the first line that closes it. */
  predicate IsReply(raw: seq<string>) {
    && |raw| > 0
    && if !Opens(raw[0]) then |raw| == 1
       else
         && |raw| > 1
         && Closes(GetCode(raw[0]), raw[|raw| - 1])
         && forall i :: 0 < i < |raw| - 1 ==> !Closes(GetCode(raw[0]), raw[i])
  }

  /** What is left when the stream breaks off inside a multi-line reply. */
  predicate IsUnfinished(raw: seq<string>) {
    raw == [] || (Opens(raw[0]) && forall i :: 0 < i < |raw| ==> !Closes(GetCode(raw[0]), raw[i]))
  }

  // ---------------------------------------------------------------- the reader

  /** What the reader makes of the origin's lines: a line it skips, or a reply it assembles from `raw`. */
  datatype Event = Dropped(line: string) | Reply(raw: seq<string>, text: string)

  function Raw(e: Event): seq<string> {
    if e.Dropped? then [e.line] else e.raw
  }

  function Lines(events: seq<Event>): seq<string> {
    if events == [] then [] else Raw(events[0]) + Lines(events[1..])
  }

  datatype Settings = Settings(message: string, proxyProtocol: bool)

  /** What the client gets in place of every 220 line that arrives before login. */
  function Welcome(s: Settings): string {
    "220 " + s.message + "\r\n"
  }

  /** A line and, when the data channel is proxied and the line answers PORT, PASV or EPSV, what replaces it. */
  datatype Input = Input(line: string, rewritten: Option<string>)

  /** The line after the welcome replacement. */
  function Greeted(s: Settings, i: Input, loggedIn: bool): string {
    if GetCode(i.line) == "220" && !loggedIn then Welcome(s) else i.line
  }

  function LoginAfter(s: Settings, i: Input, loggedIn: bool): bool {
    loggedIn || GetCode(Greeted(s, i, loggedIn)) == "230"
  }

  predicate Skipped(s: Settings, i: Input, loggedIn: bool) {
    s.proxyProtocol && Contains(Greeted(s, i, loggedIn), "500 PROXY")
  }

  /** The first line of a reply as it goes on to the multi-line test. */
  function Head(s: Settings, i: Input, loggedIn: bool): string {
    if i.rewritten.Some? then i.rewritten.value else Greeted(s, i, loggedIn)
  }

  /** How many of the inputs come before the first one that closes `code`. */
  function Body(code: string, inputs: seq<Input>): (n: nat)
    ensures n <= |inputs|
    ensures forall i :: 0 <= i < n ==> !Closes(code, inputs[i].line)
    ensures n < |inputs| ==> Closes(code, inputs[n].line)
  {
    if inputs == [] || Closes(code, inputs[0].line) then 0 else 1 + Body(code, inputs[1..])
  }

  function RawLines(inputs: seq<Input>): (r: seq<string>)
    ensures |r| == |inputs| && forall i :: 0 <= i < |r| ==> r[i] == inputs[i].line
  {
    seq(|inputs|, i requires 0 <= i < |inputs| => inputs[i].line)
  }

  /** What one turn of the reader's loop yields: an event made of the first `used` lines, or the stream broke off. */
  datatype Turn = Turn(event: Option<Event>, used: nat, loggedIn: bool)

  function OneTurn(s: Settings, inputs: seq<Input>, loggedIn: bool): (t: Turn)
    requires inputs != []
    ensures 0 < t.used <= |inputs|
  {
    var i, rest := inputs[0], inputs[1..];
    var after, head := LoginAfter(s, i, loggedIn), Head(s, i, loggedIn);
    if Skipped(s, i, loggedIn) then Turn(Some(Dropped(i.line)), 1, after)
    else if !Opens(head) then Turn(Some(Reply([i.line], head)), 1, after)
    else
      var n := Body(GetCode(head), rest);
      if n == |rest| then Turn(None, |inputs|, after)
      else
        var more := RawLines(rest[..n + 1]);
        Turn(Some(Reply([i.line] + more, head + Joined(more))), n + 2, after)
  }

  datatype Outcome = Outcome(events: seq<Event>, pending: seq<string>, loggedIn: bool)

  function Prepend(events: seq<Event>, o: Outcome): Outcome {
    o.(events := events + o.events)
  }

  /** All replies of a finite stream, and the lines of a last, unfinished one. */
  function Read(s: Settings, inputs: seq<Input>, loggedIn: bool): Outcome
    decreases |inputs|
  {
    if inputs == [] then Outcome([], [], loggedIn)
    else
      var t := OneTurn(s, inputs, loggedIn);
      if t.event.None? then Outcome([], RawLines(inputs), t.loggedIn)
      else Prepend([t.event.value], Read(s, inputs[t.used..], t.loggedIn))
  }

  lemma BodyIs(code: string, inputs: seq<Input>, n: nat)
    requires n < |inputs| && Closes(code, inputs[n].line)
    requires forall i :: 0 <= i < n ==> !Closes(code, inputs[i].line)
    ensures Body(code, inputs) == n
  {
    var b := Body(code, inputs);
    assert !(b < n) && !(n < b);
  }

  /** An opening line is one byte string up to its LF, so the codes it is compared with contain no LF. */
  lemma CodeHasNoLF(line: string)
    requires ReadLine(line) && Opens(line)
    ensures '\n' !in GetCode(line)
  {
    var pre, post := TrimParts(line);
    var b := TrimCRLF(line);
    var f := FirstField(b, '-');
    forall i | 0 <= i < |f| ensures f[i] != '\n' {
      assert line[|pre| + i] == b[i] == f[i];
    }
  }

  /** The index 3 that the reader takes of a continuation line exists whenever the codes agree. */
  lemma ClosingTestInBounds(opening: string, line: string)
    requires ReadLine(opening) && Opens(opening) && ReadLine(line)
    ensures GetCode(line) == GetCode(opening) ==> |line| >= 4
  {
    CodeHasNoLF(opening);
    if |line| < 4 {
      assert line[|line| - 1] in line;
    }
  }

  lemma WelcomeIsSingle(s: Settings)
    ensures !Opens(Welcome(s))
  {
    assert Welcome(s)[3] == "220 "[3];
  }

  /** What the proxy puts in place of a line of the origin never opens a multi-line reply. */
  predicate SingleLineReplacements(inputs: seq<Input>) {
    forall i :: 0 <= i < |inputs| && inputs[i].rewritten.Some? ==> !Opens(inputs[i].rewritten.value)
  }

  /** The loop over the continuation lines of a reply that `opening` opened; `head` is what stands for that line. */
  method ReadContinuation(opening: string, head: string, rest: seq<Input>)
    returns (raw: seq<string>, text: string, closed: bool)
    requires ReadLine(opening) && Opens(opening)
    requires forall i :: 0 <= i < |rest| ==> ReadLine(rest[i].line)
    ensures closed <==> Body(GetCode(opening), rest) < |rest|
    ensures closed ==>
      |raw| == Body(GetCode(opening), rest) + 1 && raw == RawLines(rest[..|raw|]) && text == head + Joined(raw)
  {
    hide GetCode;
    var code, k := GetCode(opening), 0;
    raw, text, closed := [], head, false;
    while !closed && k < |rest|
      invariant k <= |rest| && raw == RawLines(rest[..k]) && text == head + Joined(raw)
      invariant closed ==> 0 < k && Closes(code, rest[k - 1].line)
      invariant forall j :: 0 <= j < (if closed then k - 1 else k) ==> !Closes(code, rest[j].line)
      decreases |rest| - k
    {
      var res := rest[k].line;
      ClosingTestInBounds(opening, res);
      JoinedAppend(raw, res);
      raw, text, k := raw + [res], text + res, k + 1;
      closed := GetCode(res) == code && res[3] == ' ';
    }
    if closed {
      BodyIs(code, rest, k - 1);
    }
  }

  method ReadTurn(s: Settings, inputs: seq<Input>, loggedIn: bool) returns (t: Turn)
    requires inputs != [] && SingleLineReplacements(inputs)
    requires forall i :: 0 <= i < |inputs| ==> ReadLine(inputs[i].line)
    ensures t == OneTurn(s, inputs, loggedIn)
  {
    hide GetCode, Body, Joined, Contains, RawLines, Welcome;
    WelcomeIsSingle(s);
    var i, buff, after := inputs[0], inputs[0].line, loggedIn;
    if GetCode(buff) == "220" && !loggedIn {
      buff := Welcome(s);
    }
    if GetCode(buff) == "230" {
      after := true;
    }
    if s.proxyProtocol && Contains(buff, "500 PROXY") {
      return Turn(Some(Dropped(i.line)), 1, after);
    }
    if i.rewritten.Some? {
      buff := i.rewritten.value;
    }
    if |buff| >= 4 && buff[3] == '-' {
      assert buff == i.line;
      var more, text, closed := ReadContinuation(i.line, buff, inputs[1..]);
      if !closed {
        return Turn(None, |inputs|, after);
      }
      return Turn(Some(Reply([i.line] + more, text)), 1 + |more|, after);
    }
    return Turn(Some(Reply([i.line], buff)), 1, after);
  }

  /** The loop of the reader goroutine, run over the lines of one connection until it breaks off. */
  method ReadReplies(s: Settings, inputs: seq<Input>, initially: bool) returns (o: Outcome)
    requires SingleLineReplacements(inputs)
    requires forall i :: 0 <= i < |inputs| ==> ReadLine(inputs[i].line)
    ensures o == Read(s, inputs, initially)
  {
    var events: seq<Event>, loggedIn, rest := [], initially, inputs;
    while rest != []
      invariant SingleLineReplacements(rest) && forall i :: 0 <= i < |rest| ==> ReadLine(rest[i].line)
      invariant Read(s, inputs, initially) == Prepend(events, Read(s, rest, loggedIn))
      decreases |rest|
    {
      var t := ReadTurn(s, rest, loggedIn);
      if t.event.None? {
        return Outcome(events, RawLines(rest), t.loggedIn);
      }
      PrependTwice(events, t.event.value, Read(s, rest[t.used..], t.loggedIn));
      events, loggedIn, rest := events + [t.event.value], t.loggedIn, rest[t.used..];
    }
    return Outcome(events, [], loggedIn);
  }

  lemma PrependTwice(events: seq<Event>, e: Event, o: Outcome)
    ensures Prepend(events, Prepend([e], o)) == Prepend(events + [e], o)
  {
    assert events + ([e] + o.events) == events + [e] + o.events;
  }

  // ---------------------------------------------------------------- what the reader's replies are

  predicate Faithful(e: Event) {
    e.Reply? ==> IsReply(e.raw) && e.text == Joined(e.raw)
  }

  /** A reply whose one line was replaced: by the welcome message, or by the answer to a data command. */
  predicate Substituted(s: Settings, inputs: seq<Input>, e: Event) {
    && e.Reply? && |e.raw| == 1
    && ((GetCode(e.raw[0]) == "220" && e.text == Welcome(s)) || Input(e.raw[0], Some(e.text)) in inputs)
  }

  lemma GluedIsReply(opening: string, more: seq<string>)
    requires Opens(opening) && more != [] && Closes(GetCode(opening), more[|more| - 1])
    requires forall i :: 0 <= i < |more| - 1 ==> !Closes(GetCode(opening), more[i])
    ensures IsReply([opening] + more)
  {
    hide GetCode, Closes, Opens;
    var raw := [opening] + more;
    assert raw[0] == opening && raw[|raw| - 1] == more[|more| - 1];
    assert forall i :: 0 < i < |raw| - 1 ==> raw[i] == more[i - 1];
  }

  /** The lines up to the first closing one make a reply together with the line that opened it. */
  lemma ContinuationIsReply(opening: string, rest: seq<Input>, n: nat)
    requires Opens(opening) && n < |rest| && Body(GetCode(opening), rest) == n
    ensures var raw := [opening] + RawLines(rest[..n + 1]);
            IsReply(raw) && opening + Joined(RawLines(rest[..n + 1])) == Joined(raw)
  {
    hide GetCode, Joined, Body, Closes, Opens, RawLines, IsReply;
    var more := RawLines(rest[..n + 1]);
    TextCons(opening, more);
    assert forall i :: 0 <= i < n + 1 ==> more[i] == rest[i].line;
    GluedIsReply(opening, more);
  }

  /** What is claimed of one turn of the reader. */
  predicate TurnSound(s: Settings, inputs: seq<Input>, t: Turn)
    requires 0 < t.used <= |inputs|
  {
    if t.event.Some? then
      && Raw(t.event.value) == RawLines(inputs[..t.used])
      && (Faithful(t.event.value) || Substituted(s, inputs, t.event.value))
    else IsUnfinished(RawLines(inputs))
  }

  lemma OpeningTurn(s: Settings, inputs: seq<Input>, loggedIn: bool)
    requires inputs != [] && !Skipped(s, inputs[0], loggedIn) && Opens(inputs[0].line)
    requires Head(s, inputs[0], loggedIn) == inputs[0].line
    ensures TurnSound(s, inputs, OneTurn(s, inputs, loggedIn))
  {
    hide GetCode, Joined, Contains, Welcome, Body, Closes, RawLines, Skipped, Head, LoginAfter, Opens, Substituted;
    var i, rest := inputs[0], inputs[1..];
    var n := Body(GetCode(i.line), rest);
    if n < |rest| {
      hide IsReply;
      ContinuationIsReply(i.line, rest, n);
      assert [i.line] + RawLines(rest[..n + 1]) == RawLines(inputs[..n + 2]);
    }
  }

  lemma SingleTurn(s: Settings, inputs: seq<Input>, loggedIn: bool)
    requires inputs != [] && (Skipped(s, inputs[0], loggedIn) || !Opens(Head(s, inputs[0], loggedIn)))
    ensures TurnSound(s, inputs, OneTurn(s, inputs, loggedIn))
  {
    hide GetCode, Joined, Contains, Welcome, Body, Closes, RawLines, Skipped;
    assert RawLines(inputs[..1]) == [inputs[0].line];
    TextOne(Head(s, inputs[0], loggedIn));
  }

  lemma TurnIsSound(s: Settings, inputs: seq<Input>, loggedIn: bool)
    requires inputs != [] && SingleLineReplacements(inputs)
    ensures TurnSound(s, inputs, OneTurn(s, inputs, loggedIn))
  {
    hide GetCode, Contains, Welcome, TurnSound, OneTurn, Skipped;
    WelcomeIsSingle(s);
    var head := Head(s, inputs[0], loggedIn);
    if !Skipped(s, inputs[0], loggedIn) && Opens(head) {
      assert head == inputs[0].line;
      OpeningTurn(s, inputs, loggedIn);
    } else {
      SingleTurn(s, inputs, loggedIn);
    }
  }

  lemma TextCons(line: string, more: seq<string>)
    ensures Joined([line] + more) == line + Joined(more)
  {
    assert ([line] + more)[1..] == more;
  }

  lemma RawLinesSplit(inputs: seq<Input>, k: nat)
    requires k <= |inputs|
    ensures RawLines(inputs) == RawLines(inputs[..k]) + RawLines(inputs[k..])
  {
  }

  lemma LinesPrepend(e: Event, o: Outcome)
    ensures Lines(Prepend([e], o).events) + o.pending == Raw(e) + (Lines(o.events) + o.pending)
  {
    assert ([e] + o.events)[1..] == o.events;
  }

  lemma NothingRead(pending: seq<string>)
    ensures Lines([]) + pending == pending && IsUnfinished([])
  {
  }

  lemma TextOne(line: string)
    ensures Joined([line]) == line
  {
    assert [line][1..] == [];
  }

  /**
   The reader loses, repeats and reorders nothing: its dropped lines, the lines of its replies and what it has
   pending are, in order, the origin's stream.
   */
  lemma {:induction false} ReaderPartitions(s: Settings, inputs: seq<Input>, loggedIn: bool)
    requires SingleLineReplacements(inputs)
    ensures var o := Read(s, inputs, loggedIn);
            Lines(o.events) + o.pending == RawLines(inputs) && IsUnfinished(o.pending)
    decreases |inputs|
  {
    hide OneTurn, Faithful, Substituted, IsUnfinished, Lines, Raw;
    NothingRead(RawLines(inputs));
    if inputs != [] {
      var t := OneTurn(s, inputs, loggedIn);
      TurnIsSound(s, inputs, loggedIn);
      if t.event.Some? {
        ReaderPartitions(s, inputs[t.used..], t.loggedIn);
        LinesPrepend(t.event.value, Read(s, inputs[t.used..], t.loggedIn));
        RawLinesSplit(inputs, t.used);
      }
    }
  }

  /** Every reply is exactly one reply of the origin, byte for byte, unless its single line was substituted. */
  lemma {:induction false} ReaderIsFaithful(s: Settings, inputs: seq<Input>, loggedIn: bool, e: Event)
    requires SingleLineReplacements(inputs) && e in Read(s, inputs, loggedIn).events
    ensures Faithful(e) || Substituted(s, inputs, e)
    decreases |inputs|
  {
    hide OneTurn, Faithful, Substituted, IsUnfinished;
    if inputs != [] {
      var t := OneTurn(s, inputs, loggedIn);
      TurnIsSound(s, inputs, loggedIn);
      if t.event.Some? && e != t.event.value {
        ReaderIsFaithful(s, inputs[t.used..], t.loggedIn, e);
        if Substituted(s, inputs[t.used..], e) {
          SubstitutedIn(s, inputs, t.used, e);
        }
      }
    }
  }

  lemma SubstitutedIn(s: Settings, inputs: seq<Input>, k: nat, e: Event)
    requires k <= |inputs| && Substituted(s, inputs[k..], e)
    ensures Substituted(s, inputs, e)
  {
    hide GetCode;
  }

  lemma ReplyIsNoLonger(a: seq<string>, x: seq<string>, b: seq<string>, y: seq<string>)
    requires IsReply(a) && IsReply(b) && a + x == b + y
    ensures |b| <= |a|
  {
    hide GetCode;
    var s := a + x;
    assert s[0] == a[0] == b[0] && s[|a| - 1] == a[|a| - 1];
    assert forall i :: 0 <= i < |b| ==> s[i] == b[i];
  }

  lemma FirstReplyUnique(a: seq<string>, x: seq<string>, b: seq<string>, y: seq<string>)
    requires IsReply(a) && IsReply(b) && a + x == b + y
    ensures a == b && x == y
  {
    ReplyIsNoLonger(a, x, b, y);
    ReplyIsNoLonger(b, y, a, x);
    var s := a + x;
    assert a == s[..|a|] && b == s[..|b|] && x == s[|a|..] && y == s[|b|..];
  }

  lemma ReplyIsNotUnfinished(a: seq<string>, x: seq<string>)
    requires IsReply(a)
    ensures !IsUnfinished(a + x)
  {
    hide GetCode;
    assert (a + x)[0] == a[0] && (a + x)[|a| - 1] == a[|a| - 1];
  }

  /** A stream of lines is a sequence of replies and an unfinished rest in at most one way. */
  lemma {:induction false} RepliesAreUnique(a: seq<seq<string>>, x: seq<string>, b: seq<seq<string>>, y: seq<string>)
    requires (forall r :: r in a ==> IsReply(r)) && (forall r :: r in b ==> IsReply(r))
    requires IsUnfinished(x) && IsUnfinished(y) && Joined(a) + x == Joined(b) + y
    ensures a == b && x == y
    decreases |a|
  {
    hide IsReply, IsUnfinished;
    if a != [] && b != [] {
      assert Joined(a) + x == a[0] + (Joined(a[1..]) + x) && Joined(b) + y == b[0] + (Joined(b[1..]) + y);
      FirstReplyUnique(a[0], Joined(a[1..]) + x, b[0], Joined(b[1..]) + y);
      RepliesAreUnique(a[1..], x, b[1..], y);
      assert a == [a[0]] + a[1..] && b == [b[0]] + b[1..];
    } else if a != [] {
      assert Joined(a) + x == a[0] + (Joined(a[1..]) + x) == y;
      ReplyIsNotUnfinished(a[0], Joined(a[1..]) + x);
    } else if b != [] {
      assert Joined(b) + y == b[0] + (Joined(b[1..]) + y) == x;
      ReplyIsNotUnfinished(b[0], Joined(b[1..]) + y);
    } else {
      assert [] + x == x && [] + y == y;
    }
  }

  function Raws(events: seq<Event>): (r: seq<seq<string>>)
    ensures |r| == |events| && forall i :: 0 <= i < |r| ==> r[i] == Raw(events[i])
  {
    seq(|events|, i requires 0 <= i < |events| => Raw(events[i]))
  }

  lemma {:induction false} LinesOfRaws(events: seq<Event>)
    ensures Lines(events) == Joined(Raws(events))
  {
    if events != [] {
      LinesOfRaws(events[1..]);
      assert Raws(events)[1..] == Raws(events[1..]);
    }
  }

  /**
   Where nothing was skipped or substituted, the reader's replies and its pending lines are the only division of
   the origin's stream into replies and an unfinished rest.
   */
  lemma ReaderFindsTheDivision(s: Settings, inputs: seq<Input>, loggedIn: bool, a: seq<seq<string>>, x: seq<string>)
    requires SingleLineReplacements(inputs)
    requires forall e :: e in Read(s, inputs, loggedIn).events ==> e.Reply? && !Substituted(s, inputs, e)
    requires (forall r :: r in a ==> IsReply(r)) && IsUnfinished(x) && Joined(a) + x == RawLines(inputs)
    ensures a == Raws(Read(s, inputs, loggedIn).events) && x == Read(s, inputs, loggedIn).pending
  {
    hide IsReply, IsUnfinished, Substituted, Read, Lines, Raws;
    var o := Read(s, inputs, loggedIn);
    ReaderPartitions(s, inputs, loggedIn);
    LinesOfRaws(o.events);
    forall r | r in Raws(o.events) ensures IsReply(r) {
      var i :| 0 <= i < |o.events| && r == Raws(o.events)[i];
      ReaderIsFaithful(s, inputs, loggedIn, o.events[i]);
    }
    RepliesAreUnique(a, x, Raws(o.events), o.pending);
  }

  // ---------------------------------------------------------------- the closing test and RFC 959

  /** A reply code of RFC 959 for the purposes of the closing test: three bytes, none of them a separator. */
  predicate IsCode(code: string) {
    |code| == 3 && forall i :: 0 <= i < 3 ==> code[i] != '-' && code[i] != ' ' && !IsCRLF(code[i])
  }

  lemma FirstFieldIs(s: string, c: char, f: string)
    requires f <= s && c !in f && (|f| == |s| || s[|f|] == c)
    ensures FirstField(s, c) == f
  {
    var g := FirstField(s, c);
    assert forall i :: 0 <= i < |f| ==> s[i] == f[i] && f[i] in f;
    assert forall i :: 0 <= i < |g| ==> s[i] == g[i] && g[i] in g;
  }

  /** A line that starts with three bytes other than CR and LF keeps them when it is trimmed. */
  lemma TrimKeepsStart(line: string)
    requires |line| >= 4 && !IsCRLF(line[0]) && !IsCRLF(line[3])
    ensures |TrimCRLF(line)| >= 4 && TrimCRLF(line)[..4] == line[..4]
  {
    assert TrimLeft(line, IsCRLF) == line;
    assert |TrimRight(line, IsCRLF)| > 3;
  }

  /** getCode splits at the first occurrence of byte 3, and still finds the code of a line that has one. */
  lemma CodeOfLine(line: string)
    requires |line| >= 4 && IsCode(line[..3]) && (line[3] == '-' || line[3] == ' ')
    ensures GetCode(line) == line[..3]
  {
    assert line[0] == line[..3][0];
    TrimKeepsStart(line);
    var t := TrimCRLF(line);
    assert t[..3] == t[..4][..3] == line[..4][..3] && t[3] == t[..4][3] == line[..4][3];
    assert line[3] !in line[..3];
    FirstFieldIs(t, line[3], line[..3]);
  }

  /** The code compared sits at the very start of a closing line, not behind CR bytes that Trim removes. */
  lemma CodeAtStart(code: string, line: string)
    requires IsCode(code) && |line| >= 4 && line[3] == ' ' && GetCode(line) == code
    ensures line[..3] == code
  {
    var pre, post := TrimParts(line);
    var t, at := TrimCRLF(line), |pre|;
    assert code <= t;
    assert forall i :: 0 <= i < 3 ==> t[i] == code[i];
    assert forall i :: at <= i < at + 3 ==> line[i] == t[i - at] && line[i] != ' ';
  }

  /** The closing test is the rule of section 4.2: the code, at the very start, immediately followed by a space. */
  lemma ClosesIff(code: string, line: string)
    requires IsCode(code)
    ensures Closes(code, line) <==> |line| >= 4 && line[..4] == code + " "
  {
    if Closes(code, line) {
      CodeAtStart(code, line);
      assert line[..4] == line[..3] + [line[3]];
    }
    if |line| >= 4 && line[..4] == code + " " {
      assert line[0] == line[..4][0] && line[3] == line[..4][3];
      TrimKeepsStart(line);
      var t := TrimCRLF(line);
      assert t[3] == t[..4][3];
      assert code <= t[..4];
      FirstFieldIs(t, ' ', code);
    }
  }

  /** The separator of an opening line lies inside what Trim leaves of it. */
  lemma DashIsInside(opening: string) returns (k: nat)
    requires Opens(opening)
    ensures k <= 3 && k < |TrimCRLF(opening)| && TrimCRLF(opening)[k] == '-'
  {
    var pre, post := TrimParts(opening);
    var t, at := TrimCRLF(opening), |pre|;
    hide TrimCRLF;
    assert at <= 3 < at + |t|;
    k := 3 - at;
    assert opening[3] == t[k];
  }

  lemma CodeIsShort(opening: string)
    requires Opens(opening)
    ensures |GetCode(opening)| <= 3
    ensures GetCode(opening) != [] ==> !IsCRLF(GetCode(opening)[0])
  {
    TrimStarts(opening);
    var k := DashIsInside(opening);
    hide TrimCRLF;
    FieldStopsAt(TrimCRLF(opening), '-', k);
  }

  lemma SpacedCode(line: string)
    requires |line| >= 4 && line[3] == ' '
    ensures GetCode(line) == FirstField(TrimCRLF(line), ' ')
  {
  }

  /** The shortest line that can close a reply with this code. */
  lemma ClosingLine(code: string) returns (line: string)
    requires |code| <= 3 && (code != [] ==> !IsCRLF(code[0])) && ' ' !in code && '\n' !in code
    ensures ReadLine(line) && Closes(code, line)
  {
    hide GetCode;
    var body := code + "    "[..4 - |code|];
    line := body + "\n";
    SpacedCode(line);
    assert body[3] == ' ' && !IsCRLF(body[0]);
    assert TrimLeft(line, IsCRLF) == line;
    TrimRightAll(body, "\n", IsCRLF);
    FirstFieldIs(body, ' ', code);
    forall i | 0 <= i < 4 ensures line[i] != '\n' {
      assert i < |code| ==> code[i] in code;
    }
  }

  lemma ClosingHasNoSpace(code: string, line: string)
    requires Closes(code, line)
    ensures ' ' !in code
  {
  }

  /** Some line can close a reply exactly when its code holds no space; a malformed opening may be unclosable. */
  lemma ClosableIff(opening: string)
    requires ReadLine(opening) && Opens(opening)
    ensures (exists line :: ReadLine(line) && Closes(GetCode(opening), line)) <==> ' ' !in GetCode(opening)
  {
    var code := GetCode(opening);
    CodeIsShort(opening);
    CodeHasNoLF(opening);
    if ' ' !in code {
      var line := ClosingLine(code);
    }
    forall line | Closes(code, line) ensures ' ' !in code {
      ClosingHasNoSpace(code, line);
    }
  }

  // ---------------------------------------------------------------- what logs a client in

  /** A reply line as RFC 959 has it: a code, and a space or a dash after it. */
  predicate IsCoded(line: string) {
    |line| >= 4 && IsCode(line[..3]) && (line[3] == ' ' || line[3] == '-')
  }

  lemma LoginLine(s: Settings, i: Input, loggedIn: bool)
    ensures LoginAfter(s, i, loggedIn) <==> loggedIn || GetCode(i.line) == "230"
  {
    hide GetCode, Welcome;
    WelcomeCode(s);
  }

  /** A reply line logs a client in exactly when its code is 230, and nothing logs it out. */
  lemma LoginIff(s: Settings, i: Input, loggedIn: bool)
    requires IsCoded(i.line)
    ensures LoginAfter(s, i, loggedIn) <==> loggedIn || i.line[..3] == "230"
  {
    hide GetCode;
    LoginLine(s, i, loggedIn);
    CodeOfLine(i.line);
  }

  /** Some reply, skipped line or unfinished reply starts with a line whose code is 230. */
  predicate Greets230(o: Outcome) {
    (exists e :: e in o.events && Raw(e) != [] && GetCode(Raw(e)[0]) == "230")
    || (o.pending != [] && GetCode(o.pending[0]) == "230")
  }

  lemma FirstOfTurn(s: Settings, inputs: seq<Input>, loggedIn: bool)
    requires inputs != []
    ensures var t := OneTurn(s, inputs, loggedIn);
            && t.loggedIn == LoginAfter(s, inputs[0], loggedIn)
            && (t.event.Some? ==> Raw(t.event.value) != [] && Raw(t.event.value)[0] == inputs[0].line)
  {
    hide GetCode, Contains, Welcome, Opens, Body, Joined, Greeted;
  }

  /**
   Over a whole stream the client is logged in at the end exactly when it was at the start, or a line with code 230
   starts one of the reader's turns; the continuation of a multi-line reply logs nobody in.
   */
  lemma {:induction false} StreamLogsInIff(s: Settings, inputs: seq<Input>, loggedIn: bool)
    ensures Read(s, inputs, loggedIn).loggedIn <==> loggedIn || Greets230(Read(s, inputs, loggedIn))
    decreases |inputs|
  {
    hide OneTurn, GetCode, LoginAfter, RawLines;
    if inputs != [] {
      var t := OneTurn(s, inputs, loggedIn);
      FirstOfTurn(s, inputs, loggedIn);
      LoginLine(s, inputs[0], loggedIn);
      if t.event.Some? {
        var rest := Read(s, inputs[t.used..], t.loggedIn);
        StreamLogsInIff(s, inputs[t.used..], t.loggedIn);
        PrependGreets(t.event.value, rest);
      }
    }
  }

  lemma PrependGreets(e: Event, o: Outcome)
    requires Raw(e) != []
    ensures Greets230(Prepend([e], o)) <==> GetCode(Raw(e)[0]) == "230" || Greets230(o)
  {
    hide GetCode;
    var p := Prepend([e], o);
    assert p.events[0] == e && forall x :: x in p.events <==> x == e || x in o.events;
  }

  // ---------------------------------------------------------------- what becomes of a single line

  /**
   A line that opens nothing and answers no data command is one turn: skipped if it is a complaint about the proxy
   header, replaced by the welcome message if it is a 220 before login, and otherwise passed on as it is.
   */
  lemma SingleLineIff(s: Settings, inputs: seq<Input>, loggedIn: bool)
    requires inputs != [] && !Opens(inputs[0].line) && inputs[0].rewritten.None?
    ensures var line, t := inputs[0].line, OneTurn(s, inputs, loggedIn);
            var greeting := GetCode(line) == "220" && !loggedIn;
            && t.used == 1 && t.event.Some?
            && (!greeting ==> (t.event.value.Dropped? <==> s.proxyProtocol && Contains(line, "500 PROXY")))
            && (t.event.value.Reply? ==>
                  t.event.value == Reply([line], if greeting then "220 " + s.message + "\r\n" else line))
  {
    hide GetCode, Contains, Opens, Body, Joined;
    WelcomeIsSingle(s);
  }

  /** The answer to a data command is passed on in the words that replace it, unless the line is skipped. */
  lemma RewrittenLine(s: Settings, inputs: seq<Input>, loggedIn: bool)
    requires inputs != [] && inputs[0].rewritten.Some? && SingleLineReplacements(inputs)
    requires !Mangled(s, inputs[0].line, loggedIn)
    ensures var t := OneTurn(s, inputs, loggedIn);
            t.event == Some(Reply([inputs[0].line], inputs[0].rewritten.value)) && t.used == 1
  {
    hide GetCode, Contains, Opens, Body, Joined;
    assert !Opens(inputs[0].rewritten.value);
  }

  // ---------------------------------------------------------------- when a multi-line reply comes through whole

  /** What keeps an opening line from being passed on: the welcome replacement, or the skipped complaint. */
  predicate Mangled(s: Settings, line: string, loggedIn: bool) {
    (GetCode(line) == "220" && !loggedIn) || (s.proxyProtocol && Contains(line, "500 PROXY"))
  }

  /** Before a line that closes it, a multi-line reply of n lines is continued by n - 2. */
  lemma BodyOfReply(inputs: seq<Input>, n: nat)
    requires 1 < n <= |inputs| && IsReply(RawLines(inputs[..n]))
    ensures Opens(inputs[0].line) && Body(GetCode(inputs[0].line), inputs[1..]) == n - 2
    ensures RawLines(inputs[..n]) == [inputs[0].line] + RawLines(inputs[1..][..n - 1])
  {
    hide GetCode, Closes, Opens, Body;
    var raw, rest := RawLines(inputs[..n]), inputs[1..];
    assert raw[n - 1] == rest[n - 2].line;
    assert forall i :: 0 <= i < n - 2 ==> rest[i].line == raw[i + 1];
    BodyIs(GetCode(raw[0]), rest, n - 2);
  }

  lemma MangledTurn(s: Settings, inputs: seq<Input>, loggedIn: bool)
    requires inputs != [] && inputs[0].rewritten.None? && Mangled(s, inputs[0].line, loggedIn)
    ensures var t := OneTurn(s, inputs, loggedIn); t.event.Some? && (t.event.value.Dropped? || |t.event.value.raw| == 1)
  {
    hide GetCode, Contains, Welcome, Opens, Body;
    WelcomeIsSingle(s);
  }

  /** One turn of the reader assembles a multi-line reply whole if and only if its opening line is not mangled. */
  lemma TurnDeliversIff(s: Settings, inputs: seq<Input>, loggedIn: bool, n: nat)
    requires 1 < n <= |inputs| && IsReply(RawLines(inputs[..n])) && inputs[0].rewritten.None?
    ensures var raw, t := RawLines(inputs[..n]), OneTurn(s, inputs, loggedIn);
            && (t.event == Some(Reply(raw, Joined(raw))) <==> !Mangled(s, inputs[0].line, loggedIn))
            && (!Mangled(s, inputs[0].line, loggedIn) ==> t.used == n)
  {
    hide GetCode, Contains, Welcome, Opens, Body, Joined, IsReply, RawLines;
    if Mangled(s, inputs[0].line, loggedIn) {
      MangledTurn(s, inputs, loggedIn);
    } else {
      BodyOfReply(inputs, n);
      TextCons(inputs[0].line, RawLines(inputs[1..][..n - 1]));
    }
  }

  /**
   The reader passes on a multi-line reply as one reply, byte for byte, if and only if its opening line is neither
   a 220 before login nor a complaint about the proxy header that is skipped.
   */
  lemma DeliveredWholeIff(s: Settings, inputs: seq<Input>, loggedIn: bool)
    requires |inputs| > 1 && IsReply(RawLines(inputs)) && inputs[0].rewritten.None?
    ensures Read(s, inputs, loggedIn).events == [Reply(RawLines(inputs), Joined(RawLines(inputs)))]
       <==> !Mangled(s, inputs[0].line, loggedIn)
  {
    hide OneTurn, Mangled, Joined, IsReply;
    var n := |inputs|;
    assert inputs[..n] == inputs;
    TurnDeliversIff(s, inputs, loggedIn, n);
    var t := OneTurn(s, inputs, loggedIn);
    if t.event.Some? {
      assert Read(s, inputs, loggedIn).events[0] == t.event.value;
    }
    if !Mangled(s, inputs[0].line, loggedIn) {
      assert inputs[t.used..] == [];
      assert Read(s, inputs, loggedIn) == Prepend([t.event.value], Outcome([], [], t.loggedIn));
    }
  }

  /** A coded line opens a multi-line reply exactly if a dash follows its code, as section 4.2 of RFC 959 says. */
  lemma OpensIff(line: string)
    requires IsCoded(line)
    ensures Opens(line) <==> line[3] == '-'
  {
  }

  /** A reply that is passed on whole. */
  lemma MultiLineLogin(s: Settings)
    requires !s.proxyProtocol
    ensures var raw := ["230-a\r\n", "b\r\n", "230 c\r\n"];
            var inputs := [Input(raw[0], None), Input(raw[1], None), Input(raw[2], None)];
            Read(s, inputs, false).events == [Reply(raw, Joined(raw))]
  {
    hide GetCode, Joined, Contains, Read;
    var raw := ["230-a\r\n", "b\r\n", "230 c\r\n"];
    var inputs := [Input(raw[0], None), Input(raw[1], None), Input(raw[2], None)];
    assert raw[0][..3] == raw[2][..3] == "230";
    CodeOfLine(raw[0]);
    CodeOfLine(raw[2]);
    assert RawLines(inputs) == raw;
    DeliveredWholeIff(s, inputs, false);
  }

  /** A greeting that is mangled: the welcome replacement leaves a line that opens nothing, so the reply falls apart. */
  lemma GreetingIsSplit(s: Settings)
    requires !s.proxyProtocol
    ensures Read(s, [Input("220-a\r\n", None), Input("b\r\n", None), Input("220 c\r\n", None)], false).events
         == [Reply(["220-a\r\n"], Welcome(s)), Reply(["b\r\n"], "b\r\n"), Reply(["220 c\r\n"], Welcome(s))]
  {
    hide GetCode, Welcome, Contains, Body, Joined;
    var a, b, c := Input("220-a\r\n", None), Input("b\r\n", None), Input("220 c\r\n", None);
    assert a.line[..3] == c.line[..3] == "220";
    CodeOfLine(a.line);
    CodeOfLine(c.line);
    WelcomeCode(s);
    WelcomeIsSingle(s);
    ShortCode(b.line);
    assert [a, b, c][1..] == [b, c] && [b, c][1..] == [c] && [c][1..] == [];
    assert Read(s, [c], false) == Prepend([Reply([c.line], Welcome(s))], Read(s, [], false));
    assert Read(s, [b, c], false) == Prepend([Reply([b.line], b.line)], Read(s, [c], false));
  }

  /** A complaint that is mangled: its opening line is skipped and its last line passed on as a reply of its own. */
  lemma ComplaintLosesOpening(s: Settings)
    requires s.proxyProtocol
    ensures Read(s, [Input("500-500 PROXY\r\n", None), Input("500 c\r\n", None)], true).events
         == [Dropped("500-500 PROXY\r\n"), Reply(["500 c\r\n"], "500 c\r\n")]
  {
    hide GetCode, Body, Joined, Contains;
    var a, c := Input("500-500 PROXY\r\n", None), Input("500 c\r\n", None);
    ContainsAt(a.line, "500 PROXY", 4);
    ContainsNot(c.line, "500 PROXY");
    assert [a, c][1..] == [c] && [c][1..] == [];
    assert Read(s, [c], true) == Prepend([Reply([c.line], c.line)], Read(s, [], true));
  }

  lemma {:induction false} ContainsAt(s: string, sub: string, i: nat)
    requires i <= |s| && sub <= s[i..]
    ensures Contains(s, sub)
  {
    if i > 0 && !(sub <= s) {
      assert s[1..][i - 1..] == s[i..];
      ContainsAt(s[1..], sub, i - 1);
    }
  }

  lemma {:induction false} ContainsNot(s: string, sub: string)
    requires |s| < |sub|
    ensures !Contains(s, sub)
  {
    if s != [] {
      ContainsNot(s[1..], sub);
    }
  }

  lemma WelcomeCode(s: Settings)
    ensures GetCode(Welcome(s)) == "220"
  {
    var w := Welcome(s);
    assert w[..4] == "220 ";
    assert w[..3] == w[..4][..3] == "220" && w[3] == w[..4][3];
    CodeOfLine(w);
  }

  lemma ShortCode(line: string)
    requires |line| < 4
    ensures GetCode(line) == line
  {
  }
}
