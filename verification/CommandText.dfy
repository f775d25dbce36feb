/** Reading a script line: the quote-aware scanners, the dotted call, and the two action forms
    (core/Command.h:449-624, 713-838).

    Every line that starts with a bare verb is kept as unparsed text. */
module CommandText {

  datatype Option<T> = None | Some(value: T)

  datatype Error =
    | EmptyLine | NoBracket | NoReceiver | BadName(name: string) | NoMember | BadMember(member: string)
    | Unbalanced | Trailing | StreamHalf | StreamReserved | NotAnOperation(member: string) | NoLabel | NoFlag
    | BadIndex(text: string) | NoDeclaration | BadType(text: string)

  datatype DottedCall = DottedCall(receiver: string, member: string, payload: string)

  /** `Module::Tag name`. */
  datatype Declaration = Declaration(mod: string, tag: string, name: string)

  datatype Result<T> = Ok(value: T) | Err(error: Error)

  datatype Command =
    | Action(call: DottedCall)
    | Stream(producer: DottedCall, consumer: DottedCall)
    | ChildAcquire(verb: string, parent: string, what: Declaration)
    | Kill(receiver: string, work: string, index: Option<nat>)
    | Unflag(receiver: string, flag: string)
    | Bare(line: string)
    | Malformed(error: Error)

  // ---- Characters ------------------------------------------------------------------------------------

  predicate Blank(c: char) { c == ' ' || c == '\t' }

  predicate Space(c: char) { c == ' ' || '\t' <= c <= '\r' }

  predicate Upper(c: char) { 'A' <= c <= 'Z' }

  predicate Lower(c: char) { 'a' <= c <= 'z' }

  predicate WordChar(c: char) { Upper(c) || Lower(c) || '0' <= c <= '9' || c == '_' }

  predicate Word(s: string) {
    s != "" && forall i :: 0 <= i < |s| ==> WordChar(s[i])
  }

  predicate ValidName(s: string) { Word(s) && s != "root" }

  function TrimLeft(s: string): string {
    if s != "" && Blank(s[0]) then TrimLeft(s[1..]) else s
  }

  function TrimRight(s: string): string {
    if s != "" && Blank(s[|s| - 1]) then TrimRight(s[..|s| - 1]) else s
  }

  function Trim(s: string): string { TrimRight(TrimLeft(s)) }

  /** The first place of the character, or the length. */
  function IndexOf(s: string, c: char): (n: nat)
    ensures n <= |s| && (n < |s| ==> s[n] == c)
  {
    if s == "" || s[0] == c then 0 else 1 + IndexOf(s[1..], c)
  }

  // ---- The scan --------------------------------------------------------------------------------------

  datatype Quote = Outside | Single | Double

  /** Bracket depth, which quote is open, and whether a backslash has claimed the next character. */
  datatype Scan = Scan(depth: int, quote: Quote, skip: bool)

  const Start := Scan(0, Outside, false)

  function Step(st: Scan, c: char): Scan {
    if st.skip then st.(skip := false)
    else if st.quote != Outside && c == '\\' then st.(skip := true)
    else if c == '\'' && st.quote != Double then st.(quote := if st.quote == Single then Outside else Single)
    else if c == '"' && st.quote != Single then st.(quote := if st.quote == Double then Outside else Double)
    else if st.quote != Outside then st
    else if c == '(' then st.(depth := st.depth + 1)
    else if c == ')' then st.(depth := st.depth - 1)
    else st
  }

  /** Neither quoted nor escaped. */
  predicate Open(st: Scan) { st.quote == Outside && !st.skip }

  function Shift(n: nat, at: Option<nat>): Option<nat> {
    if at.Some? then Some(n + at.value) else None
  }

  /** The bracket that brings the depth back to 0. */
  function CloseIn(t: string, st: Scan): (at: Option<nat>)
    ensures at.Some? ==> at.value < |t| && t[at.value] == ')'
  {
    if t == "" then None
    else if Open(st) && t[0] == ')' && st.depth == 1 then Some(0)
    else Shift(1, CloseIn(t[1..], Step(st, t[0])))
  }

  /** An arrow at depth 0. */
  function ArrowIn(t: string, st: Scan): (at: Option<nat>)
    ensures at.Some? ==> at.value + 1 < |t|
  {
    if |t| < 2 then None
    else if Open(st) && st.depth == 0 && t[0] == '-' && t[1] == '>' then Some(0)
    else Shift(1, ArrowIn(t[1..], Step(st, t[0])))
  }

  // ---- Lines -----------------------------------------------------------------------------------------

  predicate AllSpace(s: string) {
    forall i :: 0 <= i < |s| ==> Space(s[i])
  }

  function ParseDotted(s: string): Result<DottedCall> {
    var open, dot := IndexOf(s, '('), IndexOf(s, '.');
    if open == |s| then Err(NoBracket)
    else if dot == |s| || dot > open then Err(NoReceiver)
    else
      var receiver, member := Trim(s[..dot]), Trim(s[dot + 1..open]);
      if !ValidName(receiver) then Err(BadName(receiver))
      else if member == "" then Err(NoMember)
      else if !Word(member) then Err(BadMember(member))
      else ParseBracket(receiver, member, s[open..])
  }

  /** The rest of the line, from its first bracket on. */
  function ParseBracket(receiver: string, member: string, tail: string): Result<DottedCall>
    requires tail != "" && tail[0] == '('
  {
    var close := CloseIn(tail, Start);
    if close.None? then Err(Unbalanced)
    else if !AllSpace(tail[close.value + 1..]) then Err(Trailing)
    else Ok(DottedCall(receiver, member, Trim(tail[1..close.value])))
  }

  function ParseStream(line: string, arrow: nat): Command
    requires arrow + 1 < |line|
  {
    var lhs, rhs := Trim(line[..arrow]), Trim(line[arrow + 2..]);
    if lhs == "" || rhs == "" then Malformed(StreamHalf)
    else
      var producer := ParseDotted(lhs);
      if producer.Err? then Malformed(producer.error)
      else
        var consumer := ParseDotted(rhs);
        if consumer.Err? then Malformed(consumer.error)
        else if !Titled(producer.value.member) || !Titled(consumer.value.member) then Malformed(StreamReserved)
        else Stream(producer.value, consumer.value)
  }

  predicate Titled(member: string) { member != "" && Upper(member[0]) }

  /** The first `::`, or the length. */
  function ScopeAt(s: string): (n: nat)
    ensures n <= |s| && (n < |s| ==> n + 1 < |s| && s[n] == ':' && s[n + 1] == ':')
  {
    if |s| < 2 then |s|
    else if s[0] == ':' && s[1] == ':' then 0
    else 1 + ScopeAt(s[1..])
  }

  /** split_module_tag, and parse_typed_declaration around it. */
  function ParseDeclaration(s: string): Result<Declaration> {
    var sp := FirstBlank(s);
    if sp == |s| then Err(NoDeclaration)
    else
      var scope, name := Trim(s[..sp]), Trim(s[sp + 1..]);
      var at := ScopeAt(scope);
      if at == |scope| || !Titled(scope[..at]) || !Titled(scope[at + 2..]) || ScopeAt(scope[at + 2..]) < |scope| - at - 2 then
        Err(BadType(scope))
      else if !ValidName(name) then Err(BadName(name))
      else Ok(Declaration(scope[..at], scope[at + 2..], name))
  }

  predicate Digit(c: char) { '0' <= c <= '9' }

  function DigitsValue(s: string): nat
    requires forall i :: 0 <= i < |s| ==> Digit(s[i])
  {
    if s == "" then 0
    else
      assert Digit(s[|s| - 1]);
      DigitsValue(s[..|s| - 1]) * 10 + (s[|s| - 1] as int - '0' as int)
  }

  function Decimal(n: nat): string {
    if n < 10 then [('0' as int + n) as char] else Decimal(n / 10) + [('0' as int + n % 10) as char]
  }

  /** The digits of a number are digits and mean that number. */
  lemma {:induction false} DecimalMeans(n: nat)
    ensures Decimal(n) != "" && (forall i :: 0 <= i < |Decimal(n)| ==> Digit(Decimal(n)[i])) && DigitsValue(Decimal(n)) == n
    ensures n > 0 ==> Decimal(n)[0] != '0'
  {
    if n >= 10 {
      DecimalMeans(n / 10);
      var d := Decimal(n);
      assert d[..|d| - 1] == Decimal(n / 10);
    }
  }

  const INDEX_MAX: nat := 0x1_0000_0000_0000_0000

  function SkipSpace(s: string): string {
    if s != "" && Space(s[0]) then SkipSpace(s[1..]) else s
  }

  /** stoull, on all of the text: blanks and a sign are let through, and a minus wraps around. */
  function ParseIndex(s: string): Option<nat> {
    var t := SkipSpace(s);
    var signed := t != "" && (t[0] == '-' || t[0] == '+');
    var d := if signed then t[1..] else t;
    if d == "" || exists i :: 0 <= i < |d| && !Digit(d[i]) then None
    else if DigitsValue(d) >= INDEX_MAX then None
    else Some(if t[0] == '-' then (INDEX_MAX - DigitsValue(d)) % INDEX_MAX else DigitsValue(d))
  }

  /** The label, and the index if there is one. */
  function ParseKill(receiver: string, payload: string): Command {
    var sp := FirstBlank(payload);
    var work, index := payload[..sp], if sp == |payload| then "" else Trim(payload[sp + 1..]);
    if index == "" then Kill(receiver, work, None)
    else
      var n := ParseIndex(index);
      if n.None? then Malformed(BadIndex(index)) else Kill(receiver, work, n)
  }

  function ParseOperation(call: DottedCall): Command {
    if call.member == "spawn" || call.member == "attach" || call.member == "ensure" then
      var what := ParseDeclaration(call.payload);
      if what.Err? then Malformed(what.error) else ChildAcquire(call.member, call.receiver, what.value)
    else if call.member == "kill" then
      if call.payload == "" then Malformed(NoLabel) else ParseKill(call.receiver, call.payload)
    else if call.member == "unflag" then
      if call.payload == "" then Malformed(NoFlag) else Unflag(call.receiver, call.payload)
    else Malformed(NotAnOperation(call.member))
  }

  function FirstBlank(s: string): (n: nat)
    ensures n <= |s|
  {
    if s == "" || Blank(s[0]) then 0 else 1 + FirstBlank(s[1..])
  }

  function ParseLine(raw: string): Command {
    var line := Trim(raw);
    if line == "" then Malformed(EmptyLine)
    else
      var arrow := ArrowIn(line, Start);
      if arrow.Some? then ParseStream(line, arrow.value)
      else
        var dot := IndexOf(line, '.');
        if dot < |line| && dot < FirstBlank(line) then
          var call := ParseDotted(line);
          if call.Err? then Malformed(call.error)
          else if call.value.member != "" && Lower(call.value.member[0]) then ParseOperation(call.value)
          else Action(call.value)
        else Bare(line)
  }

  function Print(call: DottedCall): string {
    call.receiver + "." + call.member + "(" + call.payload + ")"
  }

  // ---- What the scanners find --------------------------------------------------------------------------

  /** The state after the first n characters. */
  ghost function After(t: string, st: Scan, n: nat): Scan
    requires n <= |t|
  {
    if n == 0 then st else Step(After(t, st, n - 1), t[n - 1])
  }

  ghost predicate ClosesAt(t: string, st: Scan, i: nat) {
    i < |t| && Open(After(t, st, i)) && After(t, st, i).depth == 1 && t[i] == ')'
  }

  lemma {:induction false} AfterTail(t: string, st: Scan, n: nat)
    requires 0 < n <= |t|
    ensures After(t, st, n) == After(t[1..], Step(st, t[0]), n - 1)
  {
    if n > 1 {
      AfterTail(t, st, n - 1);
    } else {
      assert After(t, st, 1) == Step(After(t, st, 0), t[0]);
    }
  }

  /** find_closing_bracket finds the first unquoted bracket that closes what is open. */
  lemma {:induction false} CloseInFinds(t: string, st: Scan)
    ensures match CloseIn(t, st)
      case Some(k) => ClosesAt(t, st, k) && forall j :: 0 <= j < k ==> !ClosesAt(t, st, j)
      case None => forall j: nat :: !ClosesAt(t, st, j)
  {
    if t != "" && !ClosesAt(t, st, 0) {
      var rest, st' := t[1..], Step(st, t[0]);
      CloseInFinds(rest, st');
      forall j: nat | 0 < j
        ensures ClosesAt(t, st, j) <==> ClosesAt(rest, st', j - 1)
      {
        if j <= |t| { AfterTail(t, st, j); }
      }
      forall j: nat | ClosesAt(t, st, j)
        ensures 0 < j && CloseIn(t, st).Some? && CloseIn(t, st).value <= j
      {
        assert ClosesAt(rest, st', j - 1);
      }
    }
  }

  /** Balanced outside quotes, every quote closed, and no bracket closed that was not open. */
  ghost predicate BalancedFrom(p: string, st: Scan)
    decreases |p|
  {
    if p == "" then st == Start else Step(st, p[0]).depth >= 0 && BalancedFrom(p[1..], Step(st, p[0]))
  }

  ghost predicate Balanced(p: string) { BalancedFrom(p, Start) }

  ghost predicate Closes(p: string) { CloseIn("(" + p + ")", Start) == Some(|p| + 1) }

  function Deeper(st: Scan): Scan { st.(depth := st.depth + 1) }

  lemma {:induction false} ClosesFrom(p: string, st: Scan, rest: string)
    requires st.depth >= 0
    ensures CloseIn(p + ")" + rest, Deeper(st)) == Some(|p|) <==> BalancedFrom(p, st)
    decreases |p|
  {
    hide CloseIn, BalancedFrom, Step;
    if p == "" {
      ClosesAtOnce(st, rest);
    } else {
      DeeperStep(st, p[0]);
      ClosesLater(p, st, rest);
      if Step(st, p[0]).depth >= 0 {
        ClosesFrom(p[1..], Step(st, p[0]), rest);
      }
    }
  }

  lemma ClosesAtOnce(st: Scan, rest: string)
    requires st.depth >= 0
    ensures CloseIn("" + ")" + rest, Deeper(st)) == Some(0) <==> BalancedFrom("", st)
  {
    assert ("" + ")" + rest)[0] == ')';
  }

  /** One character of the payload, in the scan and in the balance. */
  lemma ClosesLater(p: string, st: Scan, rest: string)
    requires p != ""
    ensures CloseIn(p + ")" + rest, Deeper(st)) ==
      if Open(st) && p[0] == ')' && st.depth == 0 then Some(0) else Shift(1, CloseIn(p[1..] + ")" + rest, Step(Deeper(st), p[0])))
    ensures BalancedFrom(p, st) <==> Step(st, p[0]).depth >= 0 && BalancedFrom(p[1..], Step(st, p[0]))
  {
    hide Step;
    assert (p + ")" + rest)[0] == p[0] && (p + ")" + rest)[1..] == p[1..] + ")" + rest;
  }

  /** One bracket deeper, a step is the same step; only a closing bracket at depth 0 goes below 0. */
  lemma DeeperStep(st: Scan, c: char)
    requires st.depth >= 0
    ensures Step(Deeper(st), c) == Deeper(Step(st, c))
    ensures Step(st, c).depth < 0 <==> Open(st) && c == ')' && st.depth == 0
  {}

  /** The bracketed payload closes at its last character if and only if the payload is balanced. */
  lemma ClosesIffBalanced(p: string, rest: string)
    ensures CloseIn("(" + p + ")" + rest, Start) == Some(|p| + 1) <==> Balanced(p)
    ensures Closes(p) <==> Balanced(p)
  {
    assert ("(" + p + ")" + rest)[1..] == p + ")" + rest;
    assert ("(" + p + ")")[1..] == p + ")" + "";
    ClosesFrom(p, Start, rest);
    ClosesFrom(p, Start, "");
  }

  // ---- Round trips -------------------------------------------------------------------------------------

  /** Characters that change nothing in an open scan. */
  predicate Neutral(c: char) { c != '\'' && c != '"' && c != '(' && c != ')' }

  /** A receiver, a dot and a member: the head of a printed call. */
  ghost predicate Head(h: string) {
    forall i :: 0 <= i < |h| ==> WordChar(h[i]) || h[i] == '.'
  }

  lemma {:induction false} ArrowPastHead(h: string, t: string)
    requires Head(h)
    ensures ArrowIn(h + t, Start) == Shift(|h|, ArrowIn(t, Start))
    decreases |h|
  {
    if h == "" {
      assert h + t == t;
    } else {
      assert (h + t)[1..] == h[1..] + t;
      assert Step(Start, h[0]) == Start;
      ArrowPastHead(h[1..], t);
    }
  }

  lemma {:induction false} ArrowPastPayload(p: string, st: Scan, rest: string)
    requires BalancedFrom(p, st) && st.depth >= 0
    ensures ArrowIn(p + ")" + rest, Deeper(st)) == Shift(|p| + 1, ArrowIn(rest, Start))
    decreases |p|
  {
    var t := p + ")" + rest;
    if p == "" {
      assert t[1..] == rest;
    } else {
      assert t[1..] == p[1..] + ")" + rest && t[0] == p[0] && |t| >= 2;
      ArrowLater(t, st);
      DeeperStep(st, p[0]);
      assert BalancedFrom(p[1..], Step(st, p[0])) && Step(st, p[0]).depth >= 0;
      hide ArrowIn, BalancedFrom, Step, Deeper;
      ArrowPastPayload(p[1..], Step(st, p[0]), rest);
    }
  }

  lemma ArrowLater(t: string, st: Scan)
    requires |t| >= 2 && st.depth >= 0
    ensures ArrowIn(t, Deeper(st)) == Shift(1, ArrowIn(t[1..], Step(Deeper(st), t[0])))
  {}

  lemma {:induction false} IndexPast(a: string, b: string, c: char)
    requires forall i :: 0 <= i < |a| ==> a[i] != c
    ensures IndexOf(a + b, c) == |a| + IndexOf(b, c)
    decreases |a|
  {
    if a == "" {
      assert a + b == b;
    } else {
      assert (a + b)[1..] == a[1..] + b;
      IndexPast(a[1..], b, c);
    }
  }

  lemma {:induction false} BlankPast(a: string, b: string)
    requires forall i :: 0 <= i < |a| ==> !Blank(a[i])
    ensures FirstBlank(a + b) >= |a|
    decreases |a|
  {
    if a != "" {
      assert (a + b)[1..] == a[1..] + b;
      BlankPast(a[1..], b);
    }
  }

  /** A call that can be printed: a valid receiver and a member name. */
  ghost predicate Callable(call: DottedCall) { ValidName(call.receiver) && Word(call.member) }

  /** ... and an action's name at that. */
  ghost predicate Printable(call: DottedCall) { Callable(call) && Titled(call.member) }

  ghost predicate Trimmed(s: string) { s == "" || (!Blank(s[0]) && !Blank(s[|s| - 1])) }

  lemma TrimmedIff(s: string)
    ensures Trim(s) == s <==> Trimmed(s)
  {
    TrimLeftShort(s);
    TrimRightShort(TrimLeft(s));
    TrimRightShort(s);
  }

  lemma {:induction false} TrimLeftShort(s: string)
    ensures |TrimLeft(s)| <= |s| && (s != "" && Blank(s[0]) ==> |TrimLeft(s)| < |s|)
  {
    if s != "" && Blank(s[0]) { TrimLeftShort(s[1..]); }
  }

  lemma {:induction false} TrimRightShort(s: string)
    ensures |TrimRight(s)| <= |s| && (s != "" && Blank(s[|s| - 1]) ==> |TrimRight(s)| < |s|)
  {
    if s != "" && Blank(s[|s| - 1]) { TrimRightShort(s[..|s| - 1]); }
  }

  lemma PrintedHead(call: DottedCall)
    requires Callable(call)
    ensures var h := call.receiver + "." + call.member;
      Head(h) && Print(call) == h + "(" + call.payload + ")" && Trim(Print(call)) == Print(call) && Print(call) != ""
  {
    TrimmedIff(Print(call));
  }

  lemma BracketFirst(payload: string, rest: string)
    ensures IndexOf("(" + payload + ")" + rest, '(') == 0 && FirstBlank("(" + payload + ")" + rest) >= 0
  {}

  lemma DotFirst(member: string, payload: string, rest: string)
    ensures IndexOf("." + member + "(" + payload + ")" + rest, '.') == 0
  {}

  /** Where parse_dotted finds the dot and the bracket of a printed call, whatever follows it. */
  lemma PrintedPlaces(call: DottedCall, rest: string)
    requires ValidName(call.receiver) && Word(call.member)
    ensures var s, h := Print(call) + rest, call.receiver + "." + call.member;
      && IndexOf(s, '(') == |h| && IndexOf(s, '.') == |call.receiver| && FirstBlank(s) > |call.receiver|
      && s[..|call.receiver|] == call.receiver && s[|call.receiver| + 1..|h|] == call.member
      && s[|h|..] == "(" + call.payload + ")" + rest
  {
    hide IndexOf, FirstBlank;
    var s, h := Print(call) + rest, call.receiver + "." + call.member;
    BracketFirst(call.payload, rest);
    DotFirst(call.member, call.payload, rest);
    assert s == h + ("(" + call.payload + ")" + rest);
    IndexPast(h, "(" + call.payload + ")" + rest, '(');
    assert s == call.receiver + ("." + call.member + "(" + call.payload + ")" + rest);
    IndexPast(call.receiver, "." + call.member + "(" + call.payload + ")" + rest, '.');
    BlankPast(h, "(" + call.payload + ")" + rest);
  }

  /** What parse_dotted makes of a printed call: it all depends on where the bracket closes. */
  lemma ParsePrinted(call: DottedCall)
    requires ValidName(call.receiver) && Word(call.member)
    ensures var close := CloseIn("(" + call.payload + ")", Start);
      ParseDotted(Print(call)) ==
        if close.None? then Err(Unbalanced)
        else if close.value < |call.payload| + 1 then Err(Trailing)
        else Ok(DottedCall(call.receiver, call.member, Trim(call.payload)))
  {
    PrintedBracket(call);
    BracketPrinted(call.receiver, call.member, call.payload);
    hide *;
  }

  lemma WordTrims(s: string)
    requires Word(s)
    ensures Trim(s) == s && s != ""
  {
    TrimmedIff(s);
  }

  lemma PrintedBracket(call: DottedCall)
    requires ValidName(call.receiver) && Word(call.member)
    ensures ParseDotted(Print(call)) == ParseBracket(call.receiver, call.member, "(" + call.payload + ")")
  {
    var s, body := Print(call), "(" + call.payload + ")";
    PrintedPlaces(call, "");
    assert s + "" == s && body + "" == body;
    WordTrims(call.receiver);
    WordTrims(call.member);
    hide Print, Trim, IndexOf, FirstBlank, CloseIn, ParseBracket, Word;
    assert ParseDotted(s) == ParseBracket(call.receiver, call.member, body);
  }

  lemma BracketPrinted(receiver: string, member: string, payload: string)
    ensures var close := CloseIn("(" + payload + ")", Start);
      ParseBracket(receiver, member, "(" + payload + ")") ==
        if close.None? then Err(Unbalanced)
        else if close.value < |payload| + 1 then Err(Trailing)
        else Ok(DottedCall(receiver, member, Trim(payload)))
  {
    var body := "(" + payload + ")";
    var close := CloseIn(body, Start);
    hide CloseIn, Trim;
    if close.Some? {
      if close.value < |payload| + 1 {
        assert body[close.value + 1..][|payload| - close.value] == ')';
      } else {
        assert body[1..close.value] == payload;
      }
    }
  }

  /** parse_dotted gives a printed call back exactly when its payload is balanced and has no outer blanks. */
  lemma DottedRoundTrip(call: DottedCall)
    requires ValidName(call.receiver) && Word(call.member)
    ensures ParseDotted(Print(call)) == Ok(call) <==> Closes(call.payload) && Trimmed(call.payload)
  {
    hide ParseDotted, Trim, CloseIn, Print, Trimmed, ValidName, Word;
    ParsePrinted(call);
    TrimmedIff(call.payload);
    CloseInside("(" + call.payload + ")");
  }

  lemma CloseInside(t: string)
    ensures CloseIn(t, Start).Some? ==> CloseIn(t, Start).value < |t|
  {}

  /** A skipped character is always inside a quote. */
  predicate Proper(st: Scan) { st.skip ==> st.quote != Outside }

  lemma {:induction false} BalancedTrimRight(p: string, st: Scan)
    requires Proper(st) && BalancedFrom(p, st)
    ensures p != "" && Blank(p[|p| - 1]) ==> BalancedFrom(p[..|p| - 1], st)
    decreases |p|
  {
    if |p| > 1 && Blank(p[|p| - 1]) {
      BalancedTrimRight(p[1..], Step(st, p[0]));
      assert p[..|p| - 1][1..] == p[1..][..|p| - 2];
    }
  }

  lemma {:induction false} BalancedTrim(p: string)
    requires Balanced(p)
    ensures Balanced(Trim(p)) && Trimmed(Trim(p))
    decreases |p|
  {
    if p != "" && Blank(p[0]) {
      assert Step(Start, p[0]) == Start;
      BalancedTrim(p[1..]);
    } else if p != "" && Blank(p[|p| - 1]) {
      BalancedTrimRight(p, Start);
      assert TrimLeft(p[..|p| - 1]) == p[..|p| - 1];
      BalancedTrim(p[..|p| - 1]);
    } else {
      TrimmedIff(p);
    }
  }

  /** Whatever parse_dotted accepts, it accepts again when printed: its receiver and member are valid, its
      payload balanced and trimmed. */
  lemma ParsedIsPrintable(s: string)
    requires ParseDotted(s).Ok?
    ensures var call := ParseDotted(s).value;
      && ValidName(call.receiver) && Word(call.member) && Closes(call.payload) && Trimmed(call.payload)
      && ParseDotted(Print(call)) == Ok(call)
  {
    var open := IndexOf(s, '(');
    var close := CloseIn(s[open..], Start).value;
    var inner, rest := s[open + 1..open + close], s[open + close + 1..];
    assert close > 0 by { assert s[open] == '(' && s[open..][close] == ')'; }
    assert s[open + close] == s[open..][close] == ')';
    assert s[open..] == "(" + inner + ")" + rest && s[open..][1..close] == inner;
    ClosesIffBalanced(inner, rest);
    BalancedTrim(inner);
    ClosesIffBalanced(Trim(inner), "");
    DottedRoundTrip(ParseDotted(s).value);
  }

  /** ROUND TRIP, ordinary action: printing and parsing gives back exactly that action if and only if the
      payload is balanced outside quotes and has no outer blanks. */
  lemma ActionRoundTrip(call: DottedCall)
    requires Printable(call)
    ensures ParseLine(Print(call)) == Action(call) <==> Closes(call.payload) && Trimmed(call.payload)
  {
    DottedRoundTrip(call);
    if Closes(call.payload) {
      NoArrowInCall(call, "");
      assert Print(call) + "" == Print(call) && ArrowIn("", Start) == None;
    }
    ParseCallLine(call);
    hide ParseLine, ParseDotted, CloseIn, ArrowIn, Print;
  }

  /** Neither a stream line nor a runtime operation is read as an action. */
  lemma NotActions(line: string, arrow: nat, call: DottedCall)
    requires arrow + 1 < |line|
    ensures !ParseStream(line, arrow).Action? && !ParseOperation(call).Action?
  {
    hide ParseDotted, Trim, ParseDeclaration, ParseIndex;
  }

  lemma PrintedDot(call: DottedCall)
    requires Callable(call)
    ensures var line := Print(call);
      Trim(line) == line && line != "" && IndexOf(line, '.') < |line| && IndexOf(line, '.') < FirstBlank(line)
  {
    PrintedHead(call);
    PrintedPlaces(call, "");
    assert Print(call) + "" == Print(call);
  }

  /** A printed call that has no arrow in it is an action if it parses. */
  lemma ParseCallLine(call: DottedCall)
    requires Printable(call)
    ensures ParseLine(Print(call)) == Action(call) <==> ArrowIn(Print(call), Start).None? && ParseDotted(Print(call)) == Ok(call)
  {
    var line := Print(call);
    PrintedDot(call);
    var arrow := ArrowIn(line, Start);
    if arrow.Some? { NotActions(line, arrow.value, call); }
    var parsed := ParseDotted(line);
    if parsed.Ok? && arrow.None? && 1 < |line| { NotActions(line, 0, parsed.value); }
    assert Upper(call.member[0]) && !Lower(call.member[0]);
    hide Print, Trim, ArrowIn, ParseDotted, ParseStream, ParseOperation, IndexOf, FirstBlank, Printable;
  }

  /** No arrow is seen inside a printed call with a balanced payload. */
  lemma NoArrowInCall(call: DottedCall, rest: string)
    requires Callable(call) && Closes(call.payload)
    ensures ArrowIn(Print(call) + rest, Start) == Shift(|Print(call)|, ArrowIn(rest, Start))
  {
    PrintedHead(call);
    hide ArrowIn, Trim, Word, Closes;
    var h, tail := call.receiver + "." + call.member, "(" + call.payload + ")" + rest;
    assert Print(call) + rest == h + tail;
    ArrowPastHead(h, tail);
    NoArrowInBrackets(call.payload, rest);
  }

  lemma NoArrowInBrackets(payload: string, rest: string)
    requires Closes(payload)
    ensures ArrowIn("(" + payload + ")" + rest, Start) == Shift(|payload| + 2, ArrowIn(rest, Start))
  {
    ClosesIffBalanced(payload, rest);
    hide CloseIn, BalancedFrom;
    var tail := "(" + payload + ")" + rest;
    assert tail[1..] == payload + ")" + rest;
    assert ArrowIn(tail, Start) == Shift(1, ArrowIn(tail[1..], Deeper(Start)));
    ArrowPastPayload(payload, Start, rest);
  }

  function PrintStream(a: DottedCall, b: DottedCall): string { Print(a) + " -> " + Print(b) }

  lemma StreamArrow(a: DottedCall, b: DottedCall)
    requires Callable(a) && Closes(a.payload)
    ensures ArrowIn(PrintStream(a, b), Start) == Some(|Print(a)| + 1)
  {
    var rest := " -> " + Print(b);
    assert PrintStream(a, b) == Print(a) + rest;
    NoArrowInCall(a, rest);
    hide Print;
    assert rest[1..][0] == '-' && rest[1..][1] == '>';
    assert Step(Start, ' ') == Start;
    assert ArrowIn(rest, Start) == Shift(1, ArrowIn(rest[1..], Start)) == Some(1);
  }

  lemma StreamPlaces(a: DottedCall, b: DottedCall)
    requires Callable(a) && Callable(b)
    ensures var line, arrow := PrintStream(a, b), |Print(a)| + 1;
      Trim(line) == line && Trim(line[..arrow]) == Print(a) && Trim(line[arrow + 2..]) == Print(b)
  {
    var line, arrow := PrintStream(a, b), |Print(a)| + 1;
    PrintedHead(a);
    PrintedHead(b);
    TrimmedIff(Print(a));
    TrimmedIff(Print(b));
    hide Print, Trim;
    assert line[..arrow] == Print(a) + " ";
    assert line[arrow + 2..] == " " + Print(b);
    TrimOne(Print(a));
    TrimOne(Print(b));
    TrimmedIff(line);
  }

  /** ROUND TRIP, stream: arrows, brackets and escapes inside balanced payloads never split the line, and
      only such payloads come back. */
  lemma StreamRoundTrip(a: DottedCall, b: DottedCall)
    requires Printable(a) && Printable(b)
    ensures ParseLine(PrintStream(a, b)) == Stream(a, b) <==>
      Closes(a.payload) && Closes(b.payload) && Trimmed(a.payload) && Trimmed(b.payload)
  {
    if Closes(a.payload) && Closes(b.payload) && Trimmed(a.payload) && Trimmed(b.payload) {
      StreamComesBack(a, b);
    } else {
      StreamsAreParsed(PrintStream(a, b));
    }
    hide *;
  }

  lemma StreamComesBack(a: DottedCall, b: DottedCall)
    requires Printable(a) && Printable(b) && Closes(a.payload) && Closes(b.payload) && Trimmed(a.payload) && Trimmed(b.payload)
    ensures ParseLine(PrintStream(a, b)) == Stream(a, b)
  {
    hide Print, PrintStream, ParseDotted, Trim, ArrowIn, CloseIn, ParseLine, ValidName, Word, Trimmed, Closes;
    StreamPlaces(a, b);
    StreamArrow(a, b);
    PrintedHead(a);
    PrintedHead(b);
    DottedRoundTrip(a);
    DottedRoundTrip(b);
    StreamLine(PrintStream(a, b), |Print(a)| + 1, a, b);
  }

  lemma StreamLine(line: string, arrow: nat, a: DottedCall, b: DottedCall)
    requires Trim(line) == line && ArrowIn(line, Start) == Some(arrow)
    requires Trim(line[..arrow]) != "" && ParseDotted(Trim(line[..arrow])) == Ok(a)
    requires Trim(line[arrow + 2..]) != "" && ParseDotted(Trim(line[arrow + 2..])) == Ok(b)
    requires Titled(a.member) && Titled(b.member)
    ensures ParseLine(line) == Stream(a, b)
  {
    hide Trim, ParseDotted, Titled;
  }

  /** Both ends of a parsed stream line were parsed as dotted calls. */
  lemma StreamsAreParsed(raw: string)
    ensures ParseLine(raw).Stream? ==>
      var c := ParseLine(raw);
      Closes(c.producer.payload) && Trimmed(c.producer.payload) && Closes(c.consumer.payload) && Trimmed(c.consumer.payload)
  {
    var line := Trim(raw);
    if ParseLine(raw).Stream? {
      var arrow := ArrowIn(line, Start);
      assert arrow.Some? && ParseLine(raw) == ParseStream(line, arrow.value);
      ParsedIsPrintable(Trim(line[..arrow.value]));
      ParsedIsPrintable(Trim(line[arrow.value + 2..]));
    }
  }

  lemma TrimOne(s: string)
    requires Trim(s) == s && s != ""
    ensures Trim(s + " ") == s && Trim(" " + s) == s
  {
    TrimmedIff(s);
    assert TrimLeft(s + " ") == s + " ";
    assert (s + " ")[..|s|] == s;
    assert (" " + s)[1..] == s;
    assert TrimLeft(s) == s && TrimRight(s) == s;
  }
}
