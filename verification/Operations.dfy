/** Runtime operations after the dot -- spawn, attach, ensure, kill, unflag -- and what parse_line refuses
    (core/Command.h:456-489, 571-664, 713-838). */
module Operations {
  import opened CommandText

  lemma {:induction false} TrimLeftStarts(s: string)
    ensures TrimLeft(s) == "" || !Blank(TrimLeft(s)[0])
  {
    if s != "" && Blank(s[0]) { TrimLeftStarts(s[1..]); }
  }

  lemma {:induction false} TrimRightEnds(s: string)
    ensures TrimRight(s) == "" || (!Blank(TrimRight(s)[|TrimRight(s)| - 1]) && TrimRight(s)[0] == s[0])
  {
    if s != "" && Blank(s[|s| - 1]) { TrimRightEnds(s[..|s| - 1]); }
  }

  lemma TrimIsTrimmed(s: string)
    ensures Trimmed(Trim(s)) && Trim(Trim(s)) == Trim(s)
  {
    TrimLeftStarts(s);
    TrimRightEnds(TrimLeft(s));
    TrimmedIff(Trim(s));
  }

  // ---- One operation -----------------------------------------------------------------------------------

  /** A line with an operation's member is read as that operation, on its trimmed payload, if the payload closes;
      and as no operation at all if it does not. */
  lemma OperationLine(call: DottedCall)
    requires Callable(call) && Lower(call.member[0])
    ensures Closes(call.payload) ==> ParseLine(Print(call)) == ParseOperation(call.(payload := Trim(call.payload)))
    ensures !Closes(call.payload) ==> ParseLine(Print(call)).Malformed? || ParseLine(Print(call)).Stream?
  {
    var line := Print(call);
    ParsePrinted(call);
    PrintedDot(call);
    CloseInside("(" + call.payload + ")");
    if Closes(call.payload) {
      NoArrowInCall(call, "");
      assert line + "" == line && ArrowIn("", Start) == None;
    } else {
      var arrow := ArrowIn(line, Start);
      if arrow.Some? { StreamOrNot(line, arrow.value); }
    }
    hide Print, Trim, ArrowIn, ParseDotted, ParseStream, ParseOperation, IndexOf, FirstBlank, Callable, CloseIn;
  }

  lemma StreamOrNot(line: string, arrow: nat)
    requires arrow + 1 < |line|
    ensures ParseStream(line, arrow).Stream? || ParseStream(line, arrow).Malformed?
  {
    hide ParseDotted, Trim;
  }

  ghost predicate NoBlank(s: string) { forall i :: 0 <= i < |s| ==> !Blank(s[i]) }

  lemma {:induction false} BlankIn(a: string, b: string)
    requires NoBlank(a)
    ensures FirstBlank(a + b) == |a| + FirstBlank(b)
    decreases |a|
  {
    if a == "" {
      assert a + b == b;
    } else {
      assert (a + b)[1..] == a[1..] + b;
      BlankIn(a[1..], b);
    }
  }

  lemma {:induction false} BeforeBlank(s: string)
    ensures NoBlank(s[..FirstBlank(s)]) && (FirstBlank(s) < |s| ==> Blank(s[FirstBlank(s)]))
  {
    if s != "" && !Blank(s[0]) {
      BeforeBlank(s[1..]);
      assert s[..FirstBlank(s)] == [s[0]] + s[1..][..FirstBlank(s[1..])];
    }
  }

  lemma NoBlankTrims(s: string)
    requires NoBlank(s)
    ensures Trimmed(s) && Trim(s) == s && FirstBlank(s) == |s|
  {
    TrimmedIff(s);
    BlankIn(s, "");
    assert s + "" == s;
  }

  // ---- kill and unflag ---------------------------------------------------------------------------------

  function KillLine(n: string, payload: string): string { n + ".kill(" + payload + ")" }

  /** kill asks for a label; whatever it kills is the payload's first word. */
  lemma KillSays(n: string, payload: string)
    requires Trimmed(payload)
    ensures var c := ParseOperation(DottedCall(n, "kill", payload));
      && (payload == "" ==> c == Malformed(NoLabel))
      && (c.Kill? ==> c.receiver == n && c.work != "" && NoBlank(c.work) && c.work <= payload)
      && (payload != "" && NoBlank(payload) ==> c == Kill(n, payload, None))
      && (c.Kill? && c.index.None? ==> c.work == payload)
  {
    BeforeBlank(payload);
    var sp := FirstBlank(payload);
    if sp < |payload| { TrimKeepsEnd(payload, sp + 1); }
    if NoBlank(payload) { NoBlankTrims(payload); }
    hide ParseIndex, Trim;
  }

  /** What follows a blank in a trimmed text is not all blank. */
  lemma TrimKeepsEnd(s: string, i: nat)
    requires Trimmed(s) && 0 < i <= |s| && Blank(s[i - 1])
    ensures i < |s| && Trim(s[i..]) != ""
  {
    TrimEnd(s[i..]);
  }

  lemma {:induction false} TrimEnd(t: string)
    ensures t != "" && !Blank(t[|t| - 1]) ==> Trim(t) != "" && Trim(t)[|Trim(t)| - 1] == t[|t| - 1]
    decreases |t|
  {
    if t != "" && !Blank(t[|t| - 1]) {
      if Blank(t[0]) {
        assert TrimLeft(t) == TrimLeft(t[1..]);
        TrimEnd(t[1..]);
      }
    }
  }

  /** KILL: a label is read back, and no index, exactly if it is one word and closes. */
  lemma KillRoundTrip(n: string, work: string)
    requires ValidName(n)
    ensures ParseLine(KillLine(n, work)) == Kill(n, work, None) <==> work != "" && NoBlank(work) && Closes(work)
  {
    var call := DottedCall(n, "kill", work);
    assert Print(call) == KillLine(n, work);
    OperationLine(call);
    TrimIsTrimmed(work);
    KillSays(n, Trim(work));
    if NoBlank(work) { NoBlankTrims(work); }
    hide ParseLine, ParseOperation, CloseIn, Trim, Print, KillLine, Trimmed;
  }

  /** The text of a number is an index if it fits into 64 bits. */
  lemma IndexMeans(k: nat)
    ensures ParseIndex(Decimal(k)) == if k < 18446744073709551616 then Some(k) else None
    ensures 0 < k < 18446744073709551616 ==> ParseIndex("-" + Decimal(k)) == Some(18446744073709551616 - k)
  {
    DecimalMeans(k);
    hide Decimal, DigitsValue;
    assert SkipSpace(Decimal(k)) == Decimal(k);
    var t := "-" + Decimal(k);
    assert SkipSpace(t) == t && t[1..] == Decimal(k);
  }

  /** ... and a label with an index, exactly if the index is in range as well. */
  lemma KillAtRoundTrip(n: string, work: string, k: nat)
    requires ValidName(n)
    ensures ParseLine(KillLine(n, work + " " + Decimal(k))) == Kill(n, work, Some(k)) <==>
      work != "" && NoBlank(work) && k < INDEX_MAX && Closes(work + " " + Decimal(k))
  {
    var payload := work + " " + Decimal(k);
    var call := DottedCall(n, "kill", payload);
    assert Print(call) == KillLine(n, payload);
    OperationLine(call);
    TrimIsTrimmed(payload);
    KillSays(n, Trim(payload));
    if work != "" && NoBlank(work) { KillAtSays(n, work, k); }
    hide ParseLine, ParseOperation, CloseIn, Trim, Print, KillLine, Trimmed, Decimal;
  }

  lemma KillAtSays(n: string, work: string, k: nat)
    requires work != "" && NoBlank(work)
    ensures var payload := work + " " + Decimal(k);
      && Trim(payload) == payload
      && ParseOperation(DottedCall(n, "kill", payload)) ==
           if k < INDEX_MAX then Kill(n, work, Some(k)) else Malformed(BadIndex(Decimal(k)))
  {
    DecimalMeans(k);
    IndexMeans(k);
    assert NoBlank(Decimal(k)) && Decimal(k) != "";
    hide *;
    KillIndexed(n, work, Decimal(k));
  }

  /** A label and an index, whatever the index is. */
  lemma KillIndexed(n: string, work: string, index: string)
    requires work != "" && NoBlank(work) && index != "" && NoBlank(index)
    ensures var payload := work + " " + index;
      && Trim(payload) == payload
      && ParseOperation(DottedCall(n, "kill", payload)) ==
           if ParseIndex(index).Some? then Kill(n, work, ParseIndex(index)) else Malformed(BadIndex(index))
  {
    IndexedParts(work, index);
    hide Trim, ParseIndex, FirstBlank, NoBlank, Trimmed, ParseDeclaration;
  }

  lemma IndexedParts(work: string, index: string)
    requires work != "" && NoBlank(work) && index != "" && NoBlank(index)
    ensures var payload := work + " " + index;
      && Trim(payload) == payload && FirstBlank(payload) == |work| < |payload|
      && payload[..|work|] == work && payload[|work| + 1..] == index && Trim(index) == index
  {
    var payload := work + " " + index;
    assert Trimmed(payload) && FirstBlank(" " + index) == 0;
    TrimmedIff(payload);
    NoBlankTrims(index);
    assert payload == work + (" " + index);
    BlankIn(work, " " + index);
    hide Trim, FirstBlank, NoBlank, Trimmed;
  }

  /** A minus sign is let through, and wraps around. */
  lemma NegativeIndex(n: string, work: string)
    requires ValidName(n) && work != "" && NoBlank(work) && Closes(work + " -1")
    ensures ParseLine(KillLine(n, work + " -1")) == Kill(n, work, Some(INDEX_MAX - 1))
  {
    assert "-1" == "-" + Decimal(1) && NoBlank("-1");
    IndexMeans(1);
    var call := DottedCall(n, "kill", work + " -1");
    assert Print(call) == KillLine(n, work + " -1") && work + " " + "-1" == work + " -1";
    assert Callable(call) && Lower(call.member[0]);
    hide *;
    KillIndexed(n, work, "-1");
    OperationLine(call);
  }

  /** UNFLAG: the flag is read back exactly if it is there, closes and has no outer blanks. */
  lemma UnflagRoundTrip(n: string, flag: string)
    requires ValidName(n)
    ensures ParseLine(n + ".unflag(" + flag + ")") == Unflag(n, flag) <==> flag != "" && Closes(flag) && Trimmed(flag)
    ensures flag == "" ==> ParseLine(n + ".unflag(" + flag + ")") == Malformed(NoFlag)
  {
    var call := DottedCall(n, "unflag", flag);
    assert Print(call) == n + ".unflag(" + flag + ")";
    OperationLine(call);
    TrimmedIff(flag);
    if flag == "" { NothingCloses(); }
    hide ParseLine, CloseIn, Trim, Print;
  }

  lemma NothingCloses()
    ensures Closes("") && Trim("") == ""
  {
    ClosesIffBalanced("", "");
  }

  // ---- spawn, attach and ensure ------------------------------------------------------------------------

  function Declared(d: Declaration): string { d.mod + "::" + d.tag + " " + d.name }

  predicate Acquiring(verb: string) { verb == "spawn" || verb == "attach" || verb == "ensure" }

  lemma {:induction false} ScopeIn(a: string, b: string)
    requires forall i :: 0 <= i < |a| ==> a[i] != ':'
    ensures ScopeAt(a + "::" + b) == |a| && ScopeAt(a) == |a|
    decreases |a|
  {
    var t := a + "::" + b;
    if a == "" {
      assert t[0] == ':' && t[1] == ':';
    } else {
      assert t[1..] == a[1..] + "::" + b;
      ScopeIn(a[1..], b);
    }
  }

  /** What a declaration that parses gives. */
  lemma DeclarationSays(s: string)
    ensures var r := ParseDeclaration(s);
      && (r.Ok? ==> Titled(r.value.mod) && Titled(r.value.tag) && ValidName(r.value.name))
      && (r == Err(NoDeclaration) <==> NoBlank(s))
  {
    BeforeBlank(s);
    if NoBlank(s) { NoBlankTrims(s); }
    hide Trim, ScopeAt;
  }

  lemma DeclaredParses(d: Declaration)
    requires Word(d.mod) && Word(d.tag)
    ensures ParseDeclaration(Declared(d)) ==
      var name := Trim(d.name);
      if !Titled(d.mod) || !Titled(d.tag) then Err(BadType(d.mod + "::" + d.tag))
      else if !ValidName(name) then Err(BadName(name))
      else Ok(Declaration(d.mod, d.tag, name))
  {
    ScopeOfDeclared(d);
    DeclaredSplits(d);
    hide *;
    TypeSplits(Declared(d), d);
  }

  lemma DeclaredSplits(d: Declaration)
    requires Word(d.mod) && Word(d.tag)
    ensures var s, scope := Declared(d), d.mod + "::" + d.tag;
      FirstBlank(s) == |scope| < |s| && s[..|scope|] == scope && s[|scope| + 1..] == d.name && Trim(scope) == scope
  {
    var s, scope := Declared(d), d.mod + "::" + d.tag;
    assert NoBlank(scope);
    assert s == scope + (" " + d.name);
    BlankIn(scope, " " + d.name);
    NoBlankTrims(scope);
    hide Trim, NoBlank;
  }

  lemma ScopeOfDeclared(d: Declaration)
    requires Word(d.mod) && Word(d.tag)
    ensures var scope := d.mod + "::" + d.tag;
      ScopeAt(scope) == |d.mod| && ScopeAt(d.tag) == |d.tag| && scope[..|d.mod|] == d.mod && scope[|d.mod| + 2..] == d.tag
  {
    ScopeIn(d.mod, d.tag);
    ScopeIn(d.tag, "");
    hide ScopeAt;
  }

  lemma TypeSplits(s: string, d: Declaration)
    requires var scope := d.mod + "::" + d.tag;
      && FirstBlank(s) == |scope| < |s| && s[..|scope|] == scope && s[|scope| + 1..] == d.name && Trim(scope) == scope
      && ScopeAt(scope) == |d.mod| && ScopeAt(d.tag) == |d.tag| && scope[..|d.mod|] == d.mod && scope[|d.mod| + 2..] == d.tag
    ensures ParseDeclaration(s) ==
      var name := Trim(d.name);
      if !Titled(d.mod) || !Titled(d.tag) then Err(BadType(d.mod + "::" + d.tag))
      else if !ValidName(name) then Err(BadName(name))
      else Ok(Declaration(d.mod, d.tag, name))
  {
    hide Trim, ScopeAt, FirstBlank, Titled, ValidName;
  }

  /** ACQUISITIONS of a child: verb, parent, type and name come back in their places, for words as the type,
      exactly if both of them are TitleCase and the name is a valid one. */
  lemma AcquireRoundTrip(verb: string, n: string, d: Declaration)
    requires ValidName(n) && Acquiring(verb) && Word(d.mod) && Word(d.tag)
    ensures ParseLine(n + "." + verb + "(" + Declared(d) + ")") == ChildAcquire(verb, n, d) <==>
      Titled(d.mod) && Titled(d.tag) && ValidName(d.name)
  {
    var call := DottedCall(n, verb, Declared(d));
    assert Print(call) == n + "." + verb + "(" + Declared(d) + ")";
    assert Callable(call);
    OperationLine(call);
    TrimIsTrimmed(Declared(d));
    DeclarationSays(Trim(Declared(d)));
    if Titled(d.mod) && Titled(d.tag) && ValidName(d.name) {
      DeclaredCloses(d);
      DeclaredParses(d);
    }
    hide ParseLine, CloseIn, Trim, Print, Declared, ParseDeclaration;
  }

  lemma {:induction false} NeutralIsBalanced(p: string)
    requires forall i :: 0 <= i < |p| ==> Neutral(p[i])
    ensures Balanced(p)
  {
    if p != "" {
      assert Step(Start, p[0]) == Start;
      NeutralIsBalanced(p[1..]);
    }
  }

  lemma DeclaredCloses(d: Declaration)
    requires Word(d.mod) && Word(d.tag) && ValidName(d.name)
    ensures Closes(Declared(d)) && Trim(Declared(d)) == Declared(d) && Trim(d.name) == d.name
  {
    var s := Declared(d);
    forall i | 0 <= i < |s| ensures Neutral(s[i]) {}
    NeutralIsBalanced(s);
    ClosesIffBalanced(s, "");
    TrimmedIff(s);
    TrimmedIff(d.name);
  }

  /** Whatever acquires a child has one of the three verbs, a valid parent, a TitleCase type and a valid name. */
  lemma AcquiresAreParsed(raw: string)
    ensures var c := ParseLine(raw);
      c.ChildAcquire? ==> Acquiring(c.verb) && ValidName(c.parent) && Titled(c.what.mod) && Titled(c.what.tag) && ValidName(c.what.name)
  {
    hide Trim, ArrowIn, ParseDotted, ParseStream, IndexOf, FirstBlank, ParseOperation, Lower, Upper, Titled, ValidName;
    var line := Trim(raw);
    var arrow := ArrowIn(line, Start);
    if arrow.Some? { StreamOrNot(line, arrow.value); }
    var call := ParseDotted(line);
    if call.Ok? {
      AcquiresName(line);
      OperationAcquires(call.value);
    }
  }

  lemma AcquiresName(line: string)
    requires ParseDotted(line).Ok?
    ensures ValidName(ParseDotted(line).value.receiver)
  {
    ParsedIsPrintable(line);
  }

  lemma OperationAcquires(call: DottedCall)
    ensures var c := ParseOperation(call);
      c.ChildAcquire? ==>
        && Acquiring(c.verb) && c.verb == call.member && c.parent == call.receiver
        && Titled(c.what.mod) && Titled(c.what.tag) && ValidName(c.what.name)
  {
    hide ParseDeclaration, ParseIndex, Trim, FirstBlank;
    DeclarationSays(call.payload);
  }

  /** No other member that starts in lower case is an operation. */
  lemma NotAnOperationIff(call: DottedCall)
    requires Callable(call) && Lower(call.member[0]) && Closes(call.payload)
    ensures ParseLine(Print(call)) == Malformed(NotAnOperation(call.member)) <==>
      !Acquiring(call.member) && call.member != "kill" && call.member != "unflag"
  {
    OperationLine(call);
    hide ParseLine, Print, CloseIn, Trim, ParseDeclaration, ParseIndex;
  }

  // ---- What parse_dotted refuses -----------------------------------------------------------------------

  ghost predicate Without(s: string, c: char) { forall i :: 0 <= i < |s| ==> s[i] != c }

  lemma {:induction false} IndexOfNone(s: string, c: char)
    ensures IndexOf(s, c) == |s| <==> Without(s, c)
  {
    if s != "" && s[0] != c {
      IndexOfNone(s[1..], c);
      assert s == [s[0]] + s[1..];
    }
  }

  /** No bracket at all; or no dot before the first one. */
  lemma NoCallIff(s: string)
    ensures ParseDotted(s) == Err(NoBracket) <==> Without(s, '(')
    ensures ParseDotted(s) == Err(NoReceiver) <==> !Without(s, '(') && Without(s[..IndexOf(s, '(')], '.')
  {
    IndexOfNone(s, '(');
    DotBefore(s, IndexOf(s, '('));
    DottedOr(s);
    hide ParseDotted, IndexOf, Without;
  }

  lemma DotBefore(s: string, open: nat)
    requires open <= |s|
    ensures IndexOf(s, '.') == |s| || IndexOf(s, '.') >= open <==> Without(s[..open], '.')
  {
    IndexSplits(s[..open], s[open..], '.');
    IndexOfNone(s[..open], '.');
    assert s == s[..open] + s[open..];
    hide IndexOf, Without;
  }

  lemma DottedOr(s: string)
    ensures ParseDotted(s) == Err(NoBracket) <==> IndexOf(s, '(') == |s|
    ensures ParseDotted(s) == Err(NoReceiver) <==> IndexOf(s, '(') < |s| && (IndexOf(s, '.') == |s| || IndexOf(s, '.') > IndexOf(s, '('))
    ensures IndexOf(s, '(') < |s| ==> IndexOf(s, '.') != IndexOf(s, '(')
  {
    hide Trim, CloseIn, IndexOf, Word, AllSpace;
  }

  lemma {:induction false} IndexSplits(a: string, b: string, c: char)
    ensures IndexOf(a + b, c) == if Without(a, c) then |a| + IndexOf(b, c) else IndexOf(a, c)
    decreases |a|
  {
    if a == "" {
      assert a + b == b;
    } else {
      assert (a + b)[1..] == a[1..] + b && a == [a[0]] + a[1..];
      IndexSplits(a[1..], b, c);
    }
  }

  /** What else it refuses, and in which order: the name, the member, the brackets, and what follows them. */
  lemma DottedMeans(r: string, m: string, tail: string)
    requires Without(r, '.') && Without(r, '(') && Without(m, '(')
    ensures ParseDotted(r + "." + m + "(" + tail) ==
      var close := CloseIn("(" + tail, Start);
      if !ValidName(Trim(r)) then Err(BadName(Trim(r)))
      else if Trim(m) == "" then Err(NoMember)
      else if !Word(Trim(m)) then Err(BadMember(Trim(m)))
      else if close.None? then Err(Unbalanced)
      else if !AllSpace(tail[close.value..]) then Err(Trailing)
      else Ok(DottedCall(Trim(r), Trim(m), Trim(tail[..close.value - 1])))
  {
    var s, h, body := r + "." + m + "(" + tail, r + "." + m, "(" + tail;
    assert s == h + body && s == r + ("." + m + body);
    assert Without(h, '(');
    IndexPast(h, body, '(');
    IndexPast(r, "." + m + body, '.');
    assert IndexOf(body, '(') == 0 && IndexOf("." + m + body, '.') == 0;
    assert s[..|r|] == r && s[|r| + 1..|h|] == m && s[|h|..] == body;
    Bracketed(Trim(r), Trim(m), tail);
    hide Trim, CloseIn, IndexOf, Without, Word, AllSpace, ParseBracket;
  }

  lemma Bracketed(receiver: string, member: string, tail: string)
    ensures var close := CloseIn("(" + tail, Start);
      && (close.Some? ==> 0 < close.value <= |tail|)
      && ParseBracket(receiver, member, "(" + tail) ==
           if close.None? then Err(Unbalanced)
           else if !AllSpace(tail[close.value..]) then Err(Trailing)
           else Ok(DottedCall(receiver, member, Trim(tail[..close.value - 1])))
  {
    var body := "(" + tail;
    var close := CloseIn(body, Start);
    if close.Some? {
      assert body[close.value] == ')';
      assert body[close.value + 1..] == tail[close.value..] && body[1..close.value] == tail[..close.value - 1];
    }
    hide CloseIn, Trim, AllSpace;
  }

  // ---- What parse_line refuses -------------------------------------------------------------------------

  lemma {:induction false} BlankLine(raw: string)
    ensures Trim(raw) == "" <==> forall i :: 0 <= i < |raw| ==> Blank(raw[i])
  {
    if raw != "" {
      if Blank(raw[0]) {
        BlankLine(raw[1..]);
        assert raw == [raw[0]] + raw[1..] && Trim(raw) == Trim(raw[1..]);
      } else {
        TrimLeftStarts(raw);
        TrimRightKeeps(raw);
      }
    }
  }

  lemma {:induction false} TrimRightKeeps(s: string)
    requires s != "" && !Blank(s[0])
    ensures TrimRight(s) != ""
    decreases |s|
  {
    if Blank(s[|s| - 1]) { TrimRightKeeps(s[..|s| - 1]); }
  }

  lemma EmptyLineIff(raw: string)
    ensures ParseLine(raw) == Malformed(EmptyLine) <==> forall i :: 0 <= i < |raw| ==> Blank(raw[i])
  {
    hide Trim, ArrowIn, ParseDotted, IndexOf, FirstBlank, ParseStream, ParseOperation, Lower;
    BlankLine(raw);
    var line := Trim(raw);
    var arrow := ArrowIn(line, Start);
    if arrow.Some? { StreamNotEmpty(line, arrow.value); }
    NotEmpty(line);
    if ParseDotted(line).Ok? { OperationNotEmpty(ParseDotted(line).value); }
  }

  lemma StreamNotEmpty(line: string, arrow: nat)
    requires arrow + 1 < |line|
    ensures ParseStream(line, arrow) != Malformed(EmptyLine)
  {
    NotEmpty(Trim(line[..arrow]));
    NotEmpty(Trim(line[arrow + 2..]));
    hide Trim, ParseDotted;
  }

  lemma OperationNotEmpty(call: DottedCall)
    ensures ParseOperation(call) != Malformed(EmptyLine)
  {
    NotEmpty(call.payload);
    hide ParseDeclaration, ParseIndex, Trim, FirstBlank;
  }

  lemma NotEmpty(s: string)
    ensures ParseDotted(s) != Err(EmptyLine) && ParseDeclaration(s) != Err(EmptyLine)
  {
    hide Trim, CloseIn, IndexOf, FirstBlank, ScopeAt;
  }

  /** A stream of operations is refused, and so is half a stream. */
  lemma ReservedStreams(a: DottedCall, b: DottedCall)
    requires Callable(a) && Callable(b) && Closes(a.payload) && Closes(b.payload) && Trimmed(a.payload) && Trimmed(b.payload)
    ensures ParseLine(PrintStream(a, b)) == if Titled(a.member) && Titled(b.member) then Stream(a, b) else Malformed(StreamReserved)
  {
    hide Print, PrintStream, ParseDotted, Trim, ArrowIn, CloseIn, ValidName, Word, Trimmed, Closes, Titled;
    StreamPlaces(a, b);
    StreamArrow(a, b);
    PrintedHead(a);
    PrintedHead(b);
    DottedRoundTrip(a);
    DottedRoundTrip(b);
  }

  lemma HalfStreams(a: DottedCall)
    requires Callable(a) && Closes(a.payload)
    ensures ParseLine(Print(a) + " ->") == Malformed(StreamHalf)
  {
    var line, arrow := Print(a) + " ->", |Print(a)| + 1;
    NoArrowInCall(a, " ->");
    assert " ->"[1..] == "->" && Step(Start, ' ') == Start && ArrowIn("->", Start) == Some(0);
    assert ArrowIn(" ->", Start) == Some(1);
    PrintedHead(a);
    TrimmedIff(Print(a));
    TrimmedIff(line);
    assert line[..arrow] == Print(a) + " " && line[arrow + 2..] == "";
    TrimOne(Print(a));
    hide Print, Trim, ArrowIn, ParseDotted, Trimmed;
  }

  /** A line with a verb before its first blank, and no arrow, is left to the verb. */
  lemma BareVerb(verb: string, rest: string)
    requires Word(verb) && Trimmed(rest) && rest != "" && ArrowIn(verb + " " + rest, Start).None?
    ensures ParseLine(verb + " " + rest) == Bare(verb + " " + rest)
  {
    VerbParts(verb, rest);
    hide Trim, ArrowIn, ParseDotted, IndexOf, FirstBlank, Word, Trimmed;
  }

  lemma VerbParts(verb: string, rest: string)
    requires Word(verb) && Trimmed(rest) && rest != ""
    ensures var line := verb + " " + rest;
      Trim(line) == line && line != "" && FirstBlank(line) == |verb| && IndexOf(line, '.') >= |verb|
  {
    var line := verb + " " + rest;
    assert Trimmed(line) && NoBlank(verb) && FirstBlank(" " + rest) == 0;
    assert forall i :: 0 <= i < |verb| ==> verb[i] != '.';
    TrimmedIff(line);
    assert line == verb + (" " + rest);
    BlankIn(verb, " " + rest);
    IndexPast(verb, " " + rest, '.');
    hide Trim, IndexOf, FirstBlank, NoBlank, Trimmed, Word;
  }

  // ---- Names, and what may follow a call ---------------------------------------------------------------

  /** The anchor is nobody's name. */
  lemma RootIsReserved(m: string, tail: string)
    requires Without(m, '(')
    ensures ParseDotted("root." + m + "(" + tail) == Err(BadName("root"))
  {
    assert "root" + "." + m + "(" + tail == "root." + m + "(" + tail;
    WordTrims("root");
    DottedMeans("root", m, tail);
    hide ParseDotted, Trim, CloseIn;
  }

  /** Letters, digits and underscores make a name, and nothing else does. */
  lemma NamesAreWords(n: string, work: string)
    requires Without(n, '.') && Without(n, '(') && n != "root" && NoBlank(n) && work != "" && NoBlank(work) && Closes(work)
    ensures ParseDotted(n + ".kill(" + work + ")").Ok? <==>
      n != "" && forall i :: 0 <= i < |n| ==> 'a' <= n[i] <= 'z' || 'A' <= n[i] <= 'Z' || '0' <= n[i] <= '9' || n[i] == '_'
  {
    assert n + "." + "kill" + "(" + (work + ")") == n + ".kill(" + work + ")";
    NoBlankTrims(n);
    WordTrims("kill");
    DottedMeans(n, "kill", work + ")");
    assert "(" + (work + ")") == "(" + work + ")";
    assert (work + ")")[|work| + 1..] == "";
    hide ParseDotted, Trim, CloseIn, NoBlank;
  }

  /** Blanks, tabs and the other white space may follow a call, and nothing else. */
  lemma AfterTheCall(call: DottedCall, c: char)
    requires Callable(call) && Closes(call.payload)
    ensures ParseDotted(Print(call) + [c]) ==
      if c == ' ' || c == '\t' || c == '\n' || c == '\r' || c as int == 11 || c as int == 12 then Ok(call.(payload := Trim(call.payload)))
      else Err(Trailing)
  {
    var r, m, p := call.receiver, call.member, call.payload;
    var tail := p + ")" + [c];
    ClosesWithMore(p, [c]);
    SpaceOne(c);
    assert Word(r) && Without(r, '.') && Without(r, '(') && Without(m, '(');
    WordTrims(r);
    WordTrims(m);
    assert Print(call) + [c] == r + "." + m + "(" + tail;
    hide ParseDotted, Trim, CloseIn, Print, AllSpace, Without, Closes;
    DottedMeans(r, m, tail);
  }

  lemma ClosesWithMore(p: string, rest: string)
    requires Closes(p)
    ensures CloseIn("(" + (p + ")" + rest), Start) == Some(|p| + 1)
    ensures (p + ")" + rest)[|p| + 1..] == rest && (p + ")" + rest)[..|p|] == p
  {
    ClosesIffBalanced(p, rest);
    ClosesIffBalanced(p, "");
    assert "(" + (p + ")" + rest) == "(" + p + ")" + rest;
    hide CloseIn, BalancedFrom;
  }

  lemma SpaceOne(c: char)
    ensures AllSpace([c]) <==> c == ' ' || c == '\t' || c == '\n' || c == '\r' || c as int == 11 || c as int == 12
  {
    assert [c][0] == c;
  }
}
