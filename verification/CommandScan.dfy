/** The scanners and the dotted call as the program runs them (core/Command.h:526-624). */
module CommandScan {
  import opened CommandText

  // ---- The scanners' loops -----------------------------------------------------------------------------

  function QuoteOf(inSingle: bool, inDouble: bool): Quote {
    if inSingle then Single else if inDouble then Double else Outside
  }

  /** How far the scan of s has got at index i, if the scan of the rest goes on from `st`. */
  ghost function CloseFrom(s: string, i: nat, st: Scan): Option<nat> {
    if i <= |s| then Shift(i, CloseIn(s[i..], st)) else None
  }

  ghost function ArrowFrom(s: string, i: nat, st: Scan): Option<nat> {
    if i <= |s| then Shift(i, ArrowIn(s[i..], st)) else None
  }

  predicate Escaped(st: Scan, c: char) { st.quote != Outside && c == '\\' }

  /** An escaped character is stepped over together with its backslash. */
  function StateOn(st: Scan, c: char): Scan { if Escaped(st, c) then st else Step(st, c) }

  lemma CloseOne(s: string, i: nat, st: Scan)
    requires i < |s|
    ensures CloseFrom(s, i, st) == if Open(st) && s[i] == ')' && st.depth == 1 then Some(i) else CloseFrom(s, i + 1, Step(st, s[i]))
  {
    assert s[i..][1..] == s[i + 1..];
  }

  lemma ArrowOne(s: string, i: nat, st: Scan)
    requires i + 1 < |s|
    ensures ArrowFrom(s, i, st) ==
      if Open(st) && st.depth == 0 && s[i] == '-' && s[i + 1] == '>' then Some(i) else ArrowFrom(s, i + 1, Step(st, s[i]))
  {
    assert s[i..][1..] == s[i + 1..];
  }

  lemma ScanEnds(s: string, i: nat, st: Scan)
    ensures i >= |s| ==> CloseFrom(s, i, st) == None
    ensures i + 1 >= |s| ==> ArrowFrom(s, i, st) == None
  {}

  lemma CloseOn(s: string, i: nat, st: Scan)
    requires i < |s| && !st.skip
    ensures CloseFrom(s, i, st) ==
      if Open(st) && s[i] == ')' && st.depth == 1 then Some(i)
      else CloseFrom(s, if Escaped(st, s[i]) then i + 2 else i + 1, StateOn(st, s[i]))
  {
    CloseOne(s, i, st);
    if i + 1 < |s| { CloseOne(s, i + 1, Step(st, s[i])); }
    ScanEnds(s, i + 1, Step(st, s[i]));
    ScanEnds(s, i + 2, st);
    hide CloseFrom, ArrowFrom;
  }

  lemma ArrowOn(s: string, i: nat, st: Scan)
    requires i + 1 < |s| && !st.skip
    ensures ArrowFrom(s, i, st) ==
      if Open(st) && st.depth == 0 && s[i] == '-' && s[i + 1] == '>' then Some(i)
      else ArrowFrom(s, if Escaped(st, s[i]) then i + 2 else i + 1, StateOn(st, s[i]))
  {
    ArrowOne(s, i, st);
    if i + 2 < |s| { ArrowOne(s, i + 1, Step(st, s[i])); }
    ScanEnds(s, i + 1, Step(st, s[i]));
    ScanEnds(s, i + 2, st);
    hide CloseFrom, ArrowFrom;
  }

  /** What the flags and the depth become at a character, both scanners alike. */
  lemma FlagsOn(depth: int, inSingle: bool, inDouble: bool, c: char)
    requires !(inSingle && inDouble)
    ensures var st := Scan(depth, QuoteOf(inSingle, inDouble), false);
      StateOn(st, c) ==
        if (inSingle || inDouble) && c == '\\' then st
        else if c == '\'' && !inDouble then Scan(depth, QuoteOf(!inSingle, inDouble), false)
        else if c == '"' && !inSingle then Scan(depth, QuoteOf(inSingle, !inDouble), false)
        else if inSingle || inDouble then st
        else if c == '(' then Scan(depth + 1, Outside, false)
        else if c == ')' then Scan(depth - 1, Outside, false)
        else st
  {}

  method FindClosingBracket(s: string, open: nat) returns (at: Option<nat>)
    requires open <= |s|
    ensures at == Shift(open, CloseIn(s[open..], Start))
  {
    assert CloseFrom(s, open, Start) == Shift(open, CloseIn(s[open..], Start));
    hide CloseFrom, CloseIn, Shift, StateOn;
    var depth, inSingle, inDouble := 0, false, false;
    var i := open;
    while i < |s|
      invariant open <= i <= |s| + 1 && !(inSingle && inDouble)
      invariant CloseFrom(s, open, Start) == CloseFrom(s, i, Scan(depth, QuoteOf(inSingle, inDouble), false))
    {
      var c, on := s[i], i + 1;
      CloseOn(s, i, Scan(depth, QuoteOf(inSingle, inDouble), false));
      FlagsOn(depth, inSingle, inDouble, c);
      if (inSingle || inDouble) && c == '\\' {
        on := i + 2;
      } else if c == '\'' && !inDouble {
        inSingle := !inSingle;
      } else if c == '"' && !inSingle {
        inDouble := !inDouble;
      } else if inSingle || inDouble {
      } else if c == '(' {
        depth := depth + 1;
      } else if c == ')' {
        depth := depth - 1;
        if depth == 0 {
          return Some(i);
        }
      }
      i := on;
    }
    ScanEnds(s, i, Scan(depth, QuoteOf(inSingle, inDouble), false));
    return None;
  }

  method FindStreamArrow(s: string) returns (at: Option<nat>)
    ensures at == ArrowIn(s, Start)
  {
    assert s[0..] == s && ArrowFrom(s, 0, Start) == ArrowIn(s, Start);
    hide ArrowFrom, ArrowIn, Shift, StateOn;
    var depth, inSingle, inDouble := 0, false, false;
    var i := 0;
    while i + 1 < |s|
      invariant 0 <= i <= |s| + 1 && !(inSingle && inDouble)
      invariant ArrowIn(s, Start) == ArrowFrom(s, i, Scan(depth, QuoteOf(inSingle, inDouble), false))
    {
      var c, on := s[i], i + 1;
      ArrowOn(s, i, Scan(depth, QuoteOf(inSingle, inDouble), false));
      FlagsOn(depth, inSingle, inDouble, c);
      if (inSingle || inDouble) && c == '\\' {
        on := i + 2;
      } else if c == '\'' && !inDouble {
        inSingle := !inSingle;
      } else if c == '"' && !inSingle {
        inDouble := !inDouble;
      } else if inSingle || inDouble {
      } else if c == '(' {
        depth := depth + 1;
      } else if c == ')' {
        depth := depth - 1;
      } else if depth == 0 && c == '-' && s[i + 1] == '>' {
        return Some(i);
      }
      i := on;
    }
    ScanEnds(s, i, Scan(depth, QuoteOf(inSingle, inDouble), false));
    return None;
  }

  method IsWord(s: string) returns (ok: bool)
    ensures ok <==> Word(s)
  {
    for i := 0 to |s|
      invariant forall j :: 0 <= j < i ==> WordChar(s[j])
    {
      if !WordChar(s[i]) {
        return false;
      }
    }
    return s != "";
  }

  method OnlySpaceFrom(s: string, from: nat) returns (ok: bool)
    requires from <= |s|
    ensures ok <==> AllSpace(s[from..])
  {
    for i := from to |s|
      invariant forall j :: from <= j < i ==> Space(s[j])
    {
      if !Space(s[i]) {
        assert !Space(s[from..][i - from]);
        return false;
      }
    }
    return true;
  }

  method ParseDottedCall(s: string) returns (r: Result<DottedCall>)
    ensures r == ParseDotted(s)
  {
    var open, dot := IndexOf(s, '('), IndexOf(s, '.');
    if open == |s| {
      return Err(NoBracket);
    }
    if dot == |s| || dot > open {
      return Err(NoReceiver);
    }
    var receiver, member := Trim(s[..dot]), Trim(s[dot + 1..open]);
    hide Word, Trim, CloseIn, IndexOf, AllSpace;
    var named := IsWord(receiver);
    if !named || receiver == "root" {
      return Err(BadName(receiver));
    }
    if member == "" {
      return Err(NoMember);
    }
    var titled := IsWord(member);
    if !titled {
      return Err(BadMember(member));
    }
    var close := FindClosingBracket(s, open);
    if close.None? {
      return Err(Unbalanced);
    }
    assert s[open..][close.value - open + 1..] == s[close.value + 1..];
    assert s[open..][1..close.value - open] == s[open + 1..close.value];
    var ended := OnlySpaceFrom(s, close.value + 1);
    if !ended {
      return Err(Trailing);
    }
    return Ok(DottedCall(receiver, member, Trim(s[open + 1..close.value])));
  }
}
