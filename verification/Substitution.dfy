/** Names and ACE_ROOT paths in a payload: what the substitution of them leaves of the payload's quotes and
    brackets, and when (core/CommandExecutor.h:524-605, 693-712). */
module Substitution {
  import opened CommandText
  import opened CommandScan

  /** What names resolve to, and the root of the tree. A RID of 0, or an empty root, is no answer. */
  datatype Environment = Environment(rids: map<string, nat>, root: string)

  function RidOf(env: Environment, name: string): nat {
    if name != "" && name in env.rids then env.rids[name] else 0
  }

  function Directory(root: string): string
    requires root != ""
  {
    if root[|root| - 1] == '/' then root else root + "/"
  }

  /** What follows the word and its slash. */
  function Tail(token: string): string { if |token| > 9 then token[9..] else "" }

  /** resolve_ace_root_placeholder: the root and the token's own tail, or the token as written. */
  function PathFor(env: Environment, token: string): string {
    if env.root == "" then token else Directory(env.root) + Tail(token)
  }

  predicate Separator(c: char) { Blank(c) || c == '(' || c == ',' }

  predicate EndsToken(c: char) { Blank(c) || c == ',' || c == ')' }

  /** An ACE_ROOT path begins here: at a token's start, and the word ends there or goes on with a slash. */
  predicate RootAt(p: string, i: nat) {
    && i + 8 <= |p| && p[i..i + 8] == "ACE_ROOT"
    && (i == 0 || Separator(p[i - 1]))
    && (i + 8 == |p| || p[i + 8] == '/')
  }

  function TokenEnd(p: string, i: nat): (end: nat)
    requires i <= |p|
    ensures i <= end <= |p|
    decreases |p| - i
  {
    if i == |p| || EndsToken(p[i]) then i else TokenEnd(p, i + 1)
  }

  function NameEnd(p: string, i: nat): (end: nat)
    requires i <= |p|
    ensures i <= end <= |p| && forall k :: i <= k < end ==> WordChar(p[k])
    decreases |p| - i
  {
    if i == |p| || !WordChar(p[i]) then i else NameEnd(p, i + 1)
  }

  lemma RootIsWord(p: string, i: nat)
    requires i < |p|
    ensures RootAt(p, i) ==> p[i] == 'A'
  {
    if RootAt(p, i) { assert p[i] == p[i..i + 8][0]; }
  }

  lemma RootTokenMoves(p: string, i: nat)
    requires RootAt(p, i)
    ensures i < TokenEnd(p, i)
  {
    assert p[i] == p[i..i + 8][0];
  }

  /** What is written for the piece of the payload that starts at some index, and where the next starts. */
  datatype Piece = Piece(text: string, next: nat, quote: Quote)

  function PieceAt(p: string, env: Environment, i: nat, quote: Quote): (piece: Piece)
    requires i < |p|
    ensures i < piece.next <= |p|
  {
    if quote != Outside && p[i] == '\\' && i + 1 < |p| then Piece(p[i..i + 2], i + 2, quote)
    else if p[i] == '\'' && quote != Double then Piece([p[i]], i + 1, if quote == Single then Outside else Single)
    else if p[i] == '"' && quote != Single then Piece([p[i]], i + 1, if quote == Double then Outside else Double)
    else if quote == Outside && RootAt(p, i) then
      RootTokenMoves(p, i);
      Piece(PathFor(env, p[i..TokenEnd(p, i)]), TokenEnd(p, i), quote)
    else if p[i] != '@' || quote != Outside then Piece([p[i]], i + 1, quote)
    else Piece(Named(p, env, i, NameEnd(p, i + 1)), NameEnd(p, i + 1), quote)
  }

  /** The payload from index i on, with the quotes standing as they do there. */
  function Substituted(p: string, env: Environment, i: nat, quote: Quote): string
    requires i <= |p|
    decreases |p| - i
  {
    if i == |p| then "" else var piece := PieceAt(p, env, i, quote); piece.text + Substituted(p, env, piece.next, piece.quote)
  }

  /** The RID the name after the sigil stands for, or the two as written. */
  function Named(p: string, env: Environment, i: nat, end: nat): string
    requires i < end <= |p|
  {
    var rid := RidOf(env, p[i + 1..end]);
    if rid == 0 then p[i..end] else Decimal(rid)
  }

  method FindNameEnd(p: string, i: nat) returns (end: nat)
    requires i <= |p|
    ensures end == NameEnd(p, i)
  {
    end := i;
    while end < |p| && WordChar(p[end])
      invariant i <= end <= |p| && NameEnd(p, i) == NameEnd(p, end)
    {
      end := end + 1;
    }
  }

  /** One turn of the loop: what to append, and where to go on. */
  method NextPiece(p: string, env: Environment, i: nat, inSingle: bool, inDouble: bool)
    returns (text: string, next: nat, single: bool, double: bool)
    requires i < |p| && !(inSingle && inDouble)
    ensures !(single && double) && Piece(text, next, QuoteOf(single, double)) == PieceAt(p, env, i, QuoteOf(inSingle, inDouble))
  {
    hide RootAt, PathFor, RidOf, Decimal, NameEnd, TokenEnd;
    var c := p[i];
    single, double := inSingle, inDouble;
    text, next := [c], i + 1;
    if (inSingle || inDouble) && c == '\\' && i + 1 < |p| {
      text, next := [c] + [p[i + 1]], i + 2;
    } else if c == '\'' && !inDouble {
      single := !single;
    } else if c == '"' && !inSingle {
      double := !double;
    } else if !inSingle && !inDouble && RootAt(p, i) {
      RootTokenMoves(p, i);
      next := TokenEnd(p, i);
      text := PathFor(env, p[i..next]);
    } else if c != '@' || inSingle || inDouble {
    } else {
      next := FindNameEnd(p, i + 1);
      var rid := RidOf(env, p[i + 1..next]);
      text := if rid == 0 then p[i..next] else Decimal(rid);
    }
  }

  method SubstituteNameTokens(p: string, env: Environment) returns (out: string)
    ensures out == Substituted(p, env, 0, Outside)
  {
    out := "";
    var inSingle, inDouble := false, false;
    var i := 0;
    while i < |p|
      invariant 0 <= i <= |p| && !(inSingle && inDouble)
      invariant Substituted(p, env, 0, Outside) == out + Substituted(p, env, i, QuoteOf(inSingle, inDouble))
    {
      hide PieceAt;
      var text: string;
      text, i, inSingle, inDouble := NextPiece(p, env, i, inSingle, inDouble);
      out := out + text;
    }
  }

  /** Free of quotes and brackets. */
  ghost predicate Plain(s: string) {
    forall i :: 0 <= i < |s| ==> Neutral(s[i])
  }

  /** The quoted spans of a text, quotes included, one after the other. */
  ghost function Quoted(t: string, st: Scan): string
    decreases |t|
  {
    if t == "" then ""
    else (if st.quote != Outside || Step(st, t[0]).quote != Outside then [t[0]] else "") + Quoted(t[1..], Step(st, t[0]))
  }

  /** The state of the scan after a text. */
  ghost function End(t: string, st: Scan): Scan
    decreases |t|
  {
    if t == "" then st else End(t[1..], Step(st, t[0]))
  }

  lemma {:induction false} PlainPasses(x: string, t: string, st: Scan)
    requires Plain(x) && Open(st)
    ensures Quoted(x + t, st) == Quoted(t, st) && End(x + t, st) == End(t, st)
    ensures st.depth >= 0 ==> (BalancedFrom(x + t, st) <==> BalancedFrom(t, st))
    decreases |x|
  {
    if x == "" {
      assert x + t == t;
    } else {
      assert (x + t)[1..] == x[1..] + t;
      PlainPasses(x[1..], t, st);
    }
  }

  /** What the scan makes of a text and of another one that begins with the same character. */
  ghost predicate Alike(a: string, b: string, st: Scan) {
    Quoted(a, st) == Quoted(b, st) && End(a, st) == End(b, st) && (st.depth >= 0 ==> (BalancedFrom(a, st) <==> BalancedFrom(b, st)))
  }

  lemma SameHead(c: char, a: string, b: string, st: Scan)
    requires Alike(a, b, Step(st, c))
    ensures Alike([c] + a, [c] + b, st)
  {
    assert ([c] + a)[1..] == a && ([c] + b)[1..] == b;
  }

  lemma SamePlain(x: string, y: string, a: string, b: string, st: Scan)
    requires Plain(x) && Plain(y) && Open(st) && Alike(a, b, st)
    ensures Alike(x + a, y + b, st)
  {
    PlainPasses(x, a, st);
    PlainPasses(y, b, st);
  }

  lemma {:induction false} SameText(x: string, a: string, b: string, st: Scan)
    requires Alike(a, b, End(x, st))
    ensures Alike(x + a, x + b, st)
    decreases |x|
  {
    hide Alike;
    if x == "" {
      assert x + a == a && x + b == b;
    } else {
      SameText(x[1..], a, b, Step(st, x[0]));
      SameHead(x[0], x[1..] + a, x[1..] + b, st);
      assert [x[0]] + (x[1..] + a) == x + a && [x[0]] + (x[1..] + b) == x + b;
    }
  }

  // ---- One piece ---------------------------------------------------------------------------------------

  /** The walk has come to an ACE_ROOT token. */
  predicate TokenHere(p: string, i: nat, quote: Quote)
    requires i < |p|
  {
    quote == Outside && RootAt(p, i)
  }

  /** ... to a name with its sigil. */
  predicate NameHere(p: string, i: nat, quote: Quote)
    requires i < |p|
  {
    quote == Outside && p[i] == '@' && NameEnd(p, i + 1) > i + 1
  }

  /** The part of a piece that is copied whatever the rest of it resolves to. */
  function Copied(p: string, i: nat, quote: Quote): string
    requires i < |p|
  {
    if TokenHere(p, i, quote) then Tail(p[i..TokenEnd(p, i)]) else ""
  }

  function OldHead(p: string, i: nat, quote: Quote): string
    requires i < |p|
  {
    var whole := p[i..PieceAt(p, Nowhere, i, quote).next];
    if TokenHere(p, i, quote) && |whole| > 9 then whole[..9] else whole
  }

  function NewHead(p: string, env: Environment, i: nat, quote: Quote): string
    requires i < |p|
  {
    if TokenHere(p, i, quote) && env.root != "" then Directory(env.root)
    else if NameHere(p, i, quote) then Decimal(RidOf(env, p[i + 1..NameEnd(p, i + 1)]))
    else ""
  }

  /** Text that leaves the scan where it was, quoted or not, except that it uses up a backslash before it. */
  ghost predicate Settled(x: string) {
    x != "" && Plain(x) && x[|x| - 1] != '\\'
  }

  const Nowhere := Environment(map[], "")

  /** Where the pieces lie does not depend on what anything resolves to. */
  lemma PieceShape(p: string, env: Environment, i: nat, quote: Quote)
    requires i < |p|
    ensures PieceAt(p, env, i, quote).next == PieceAt(p, Nowhere, i, quote).next
    ensures PieceAt(p, env, i, quote).quote == PieceAt(p, Nowhere, i, quote).quote
  {
    hide RootAt, PathFor, Named, NameEnd, TokenEnd;
  }

  lemma DecimalSettled(n: nat)
    ensures Settled(Decimal(n)) && forall k :: 0 <= k < |Decimal(n)| ==> Decimal(n)[k] != '@'
  {
    DecimalMeans(n);
    hide Decimal, DigitsValue;
  }

  lemma DirectorySettled(root: string)
    requires root != "" && Plain(root)
    ensures Settled(Directory(root))
  {}

  lemma WordSettled(p: string, i: nat)
    requires i < |p| && p[i] == '@'
    ensures Settled(p[i..NameEnd(p, i + 1)])
  {
    var end := NameEnd(p, i + 1);
    assert forall k :: 0 < k < end - i ==> p[i..end][k] == p[i + k];
    hide NameEnd;
  }

  /** A token that goes on after the word goes on with a slash. */
  lemma {:induction false} TokenHead(p: string, i: nat)
    requires RootAt(p, i)
    ensures var token := p[i..TokenEnd(p, i)];
      if i + 8 == |p| then token == "ACE_ROOT" else token == "ACE_ROOT/" + Tail(token)
  {
    assert forall k :: i <= k < i + 8 ==> p[k] == "ACE_ROOT"[k - i] by {
      assert p[i..i + 8] == "ACE_ROOT";
    }
    TokenGoesOn(p, i, 8);
    if i + 8 < |p| {
      TokenGoesOn(p, i, 9);
      var token := p[i..TokenEnd(p, i)];
      assert token[..9] == "ACE_ROOT/";
      assert token == token[..9] + token[9..];
    }
  }

  lemma {:induction false} TokenGoesOn(p: string, i: nat, n: nat)
    requires i + n <= |p| && forall k :: i <= k < i + n ==> !EndsToken(p[k])
    ensures TokenEnd(p, i) == TokenEnd(p, i + n)
    decreases n
  {
    if n > 0 { TokenGoesOn(p, i + 1, n - 1); }
  }

  /** What can be changed: the word of a token for the root of the tree, and a name for its RID. */
  lemma PieceParts(p: string, env: Environment, i: nat, quote: Quote)
    requires i < |p| && Plain(env.root)
    ensures var piece := PieceAt(p, env, i, quote);
      piece.text == p[i..piece.next] ||
      (&& (TokenHere(p, i, quote) || NameHere(p, i, quote))
       && piece.text == NewHead(p, env, i, quote) + Copied(p, i, quote)
       && p[i..piece.next] == OldHead(p, i, quote) + Copied(p, i, quote)
       && Settled(NewHead(p, env, i, quote)) && Settled(OldHead(p, i, quote)))
  {
    assert p[i..i + 1] == [p[i]];
    RootIsWord(p, i);
    if TokenHere(p, i, quote) {
      TokenParts(p, env, i);
    } else if quote == Outside && p[i] == '@' {
      DecimalSettled(RidOf(env, p[i + 1..NameEnd(p, i + 1)]));
      WordSettled(p, i);
      assert p[i + 1..i + 1] == "";
    }
    hide RootAt, PathFor, RidOf, Decimal, NameEnd, TokenEnd, Settled;
  }

  lemma TokenParts(p: string, env: Environment, i: nat)
    requires i < |p| && Plain(env.root) && RootAt(p, i)
    ensures var piece := PieceAt(p, env, i, Outside);
      piece.text == p[i..piece.next] ||
      (&& piece.text == NewHead(p, env, i, Outside) + Copied(p, i, Outside)
       && p[i..piece.next] == OldHead(p, i, Outside) + Copied(p, i, Outside)
       && Settled(NewHead(p, env, i, Outside)) && Settled(OldHead(p, i, Outside)))
  {
    RootIsWord(p, i);
    TokenHead(p, i);
    PieceShape(p, env, i, Outside);
    if env.root != "" { DirectorySettled(env.root); }
    hide RootAt, TokenEnd, NameEnd, Named, Directory;
    assert Settled("ACE_ROOT") && Settled("ACE_ROOT/");
    var token := p[i..TokenEnd(p, i)];
    assert OldHead(p, i, Outside) in {"ACE_ROOT", "ACE_ROOT/"} by {
      if |token| > 9 { assert token[..9] == "ACE_ROOT/"; } else if token != "ACE_ROOT" { assert token == "ACE_ROOT/"; }
    }
  }

  // ---- The scan and the walk ---------------------------------------------------------------------------

  lemma {:induction false} EndJoin(a: string, b: string, st: Scan)
    ensures End(a + b, st) == End(b, End(a, st))
    decreases |a|
  {
    if a == "" {
      assert a + b == b;
    } else {
      assert (a + b)[1..] == a[1..] + b;
      EndJoin(a[1..], b, Step(st, a[0]));
    }
  }

  lemma {:induction false} QuotedJoin(a: string, b: string, st: Scan)
    ensures Quoted(a + b, st) == Quoted(a, st) + Quoted(b, End(a, st))
    decreases |a|
  {
    if a == "" {
      assert a + b == b;
    } else {
      assert (a + b)[1..] == a[1..] + b;
      QuotedJoin(a[1..], b, Step(st, a[0]));
    }
  }

  lemma {:induction false} StaysProper(t: string, st: Scan)
    requires Proper(st)
    ensures Proper(End(t, st))
    decreases |t|
  {
    if t != "" { StaysProper(t[1..], Step(st, t[0])); }
  }

  /** Settled text is in the quoted spans as a whole, or not at all. */
  lemma {:induction false} SettledPasses(x: string, st: Scan)
    requires Settled(x) && Proper(st)
    ensures End(x, st) == st.(skip := false) && Quoted(x, st) == if st.quote == Outside then "" else x
    decreases |x|
  {
    if |x| == 1 {
      assert x[1..] == "";
    } else {
      assert x[1..][|x| - 2] == x[|x| - 1];
      SettledPasses(x[1..], Step(st, x[0]));
      assert x == [x[0]] + x[1..];
    }
  }

  /** Whatever a piece resolves to, it takes the scan to the same state. */
  lemma PieceInStep(p: string, env: Environment, i: nat, quote: Quote, st: Scan)
    requires i < |p| && Plain(env.root) && Proper(st)
    ensures var piece := PieceAt(p, env, i, quote);
      End(piece.text, st) == End(p[i..piece.next], st) && Proper(End(p[i..piece.next], st))
  {
    var piece := PieceAt(p, env, i, quote);
    PieceParts(p, env, i, quote);
    hide PieceAt, End, Settled, NewHead, OldHead, Copied;
    StaysProper(p[i..piece.next], st);
    if piece.text != p[i..piece.next] {
      SettledPasses(NewHead(p, env, i, quote), st);
      SettledPasses(OldHead(p, i, quote), st);
      EndJoin(NewHead(p, env, i, quote), Copied(p, i, quote), st);
      EndJoin(OldHead(p, i, quote), Copied(p, i, quote), st);
    }
  }

  /** Walking from index i on, with the scan of the payload in state `st` there: no piece that the scan has
      inside a quote is changed. */
  ghost predicate Undisturbed(p: string, env: Environment, i: nat, quote: Quote, st: Scan)
    requires i <= |p|
    decreases |p| - i
  {
    i == |p| ||
    var piece := PieceAt(p, env, i, quote);
    && (piece.text == p[i..piece.next] || Open(st))
    && Undisturbed(p, env, piece.next, piece.quote, End(p[i..piece.next], st))
  }

  lemma PieceIsUnseen(p: string, env: Environment, i: nat, quote: Quote, st: Scan, rest: string)
    requires i < |p| && Plain(env.root) && Proper(st)
    requires var piece := PieceAt(p, env, i, quote);
      (piece.text == p[i..piece.next] || Open(st)) && Alike(rest, p[piece.next..], End(p[i..piece.next], st))
    ensures Alike(PieceAt(p, env, i, quote).text + rest, p[i..], st)
  {
    hide *;
    var piece := PieceAt(p, env, i, quote);
    PieceParts(p, env, i, quote);
    assert p[i..] == p[i..piece.next] + p[piece.next..];
    if piece.text == p[i..piece.next] {
      SameText(piece.text, rest, p[piece.next..], st);
    } else {
      var x, y, tail := NewHead(p, env, i, quote), OldHead(p, i, quote), Copied(p, i, quote);
      HeadsAreUnseen(x, y, tail, rest, p[piece.next..], st);
      assert x + tail + rest == x + (tail + rest);
      assert y + tail + p[piece.next..] == y + (tail + p[piece.next..]);
    }
  }

  lemma HeadsAreUnseen(x: string, y: string, tail: string, a: string, b: string, st: Scan)
    requires Settled(x) && Settled(y) && Open(st) && Alike(a, b, End(y + tail, st))
    ensures Alike(x + (tail + a), y + (tail + b), st)
  {
    SettledPasses(y, st);
    EndJoin(y, tail, st);
    assert End(y + tail, st) == End(tail, st) && Plain(x) && Plain(y);
    hide Alike, Settled, Plain, End;
    SameText(tail, a, b, st);
    SamePlain(x, y, tail + a, tail + b, st);
  }

  /** The scan cannot tell a payload from what substitution makes of it, unless something is changed inside
      a quote. */
  lemma {:induction false} SubstitutionIsUnseen(p: string, env: Environment, i: nat, quote: Quote, st: Scan)
    requires i <= |p| && Plain(env.root) && Proper(st) && Undisturbed(p, env, i, quote, st)
    ensures Alike(Substituted(p, env, i, quote), p[i..], st)
    decreases |p| - i
  {
    hide Alike;
    if i == |p| {
      NothingSubstituted(p, env, quote);
      AlikeItself(p[i..], st);
    } else {
      var piece := PieceAt(p, env, i, quote);
      PieceInStep(p, env, i, quote, st);
      hide PieceAt;
      assert Substituted(p, env, i, quote) == piece.text + Substituted(p, env, piece.next, piece.quote);
      SubstitutionIsUnseen(p, env, piece.next, piece.quote, End(p[i..piece.next], st));
      PieceIsUnseen(p, env, i, quote, st, Substituted(p, env, piece.next, piece.quote));
    }
  }

  lemma AlikeItself(t: string, st: Scan)
    ensures Alike(t, t, st)
  {}

  /** Every quoted span is copied byte for byte, the scan ends in the same state, and the brackets around
      the payload close at its last character afterwards exactly if they did before. */
  ghost predicate Keeps(p: string, env: Environment) {
    var out := Substituted(p, env, 0, Outside);
    Quoted(out, Start) == Quoted(p, Start) && End(out, Start) == End(p, Start) && (Closes(out) <==> Closes(p))
  }

  /** SUBSTITUTION KEEPS THE PAYLOAD'S BOUNDARIES, with a root directory free of quotes and brackets, if
      nothing is changed where the scan is inside a quote. */
  lemma SubstitutionKeepsBoundaries(p: string, env: Environment)
    requires Plain(env.root) && Undisturbed(p, env, 0, Outside, Start)
    ensures Keeps(p, env)
  {
    SubstitutionIsUnseen(p, env, 0, Outside, Start);
    assert p[0..] == p;
    ClosesIffBalanced(p, "");
    ClosesIffBalanced(Substituted(p, env, 0, Outside), "");
  }

  /** Where nothing resolves, nothing changes. */
  lemma {:induction false} UnresolvedIsVerbatim(p: string, env: Environment, i: nat, quote: Quote)
    requires i <= |p|
    requires (forall n :: n in env.rids ==> env.rids[n] == 0) && env.root == ""
    ensures Substituted(p, env, i, quote) == p[i..]
    decreases |p| - i
  {
    if i < |p| {
      var piece := PieceAt(p, env, i, quote);
      CopiedPiece(p, env, i, quote);
      hide PieceAt;
      UnresolvedIsVerbatim(p, env, piece.next, piece.quote);
      assert p[i..] == p[i..piece.next] + p[piece.next..];
    }
  }

  /** A piece in which nothing resolves is copied. */
  lemma CopiedPiece(p: string, env: Environment, i: nat, quote: Quote)
    requires i < |p| && forall n :: RidOf(env, n) == 0
    requires quote == Outside && RootAt(p, i) ==> PathFor(env, p[i..TokenEnd(p, i)]) == p[i..TokenEnd(p, i)]
    ensures var piece := PieceAt(p, env, i, quote); piece.text == p[i..piece.next]
  {
    hide RidOf, PathFor, RootAt, TokenEnd, NameEnd, Decimal;
    assert p[i..i + 1] == [p[i]];
  }

  // ---- What is changed, and into what --------------------------------------------------------------------

  lemma {:induction false} NameEndsAt(p: string, i: nat, j: nat)
    requires i <= j <= |p| && (forall k :: i <= k < j ==> WordChar(p[k])) && (j < |p| ==> !WordChar(p[j]))
    ensures NameEnd(p, i) == j
    decreases j - i
  {
    if i < j { NameEndsAt(p, i + 1, j); }
  }

  /** A NAME with its sigil, outside quotes and as long as it is: its RID in decimal, if it has one. */
  lemma NameIsReplaced(p: string, env: Environment, i: nat, j: nat)
    requires i < j <= |p| && p[i] == '@' && (forall k :: i < k < j ==> WordChar(p[k])) && (j < |p| ==> !WordChar(p[j]))
    ensures var n := p[i + 1..j];
      var known := n != "" && n in env.rids && env.rids[n] != 0;
      Substituted(p, env, i, Outside) == (if known then Decimal(env.rids[n]) else p[i..j]) + Substituted(p, env, j, Outside)
  {
    NameEndsAt(p, i + 1, j);
    RootIsWord(p, i);
    hide RootAt, Decimal, NameEnd;
  }

  /** Where an argument ends, and after what one begins. */
  ghost predicate Stops(c: char) { c == ' ' || c == '\t' || c == ',' || c == ')' }

  ghost predicate Starts(c: char) { c == ' ' || c == '\t' || c == ',' || c == '(' }

  lemma {:induction false} TokenEndsAt(p: string, i: nat, j: nat)
    requires i <= j <= |p| && (forall k :: i <= k < j ==> !Stops(p[k])) && (j < |p| ==> Stops(p[j]))
    ensures TokenEnd(p, i) == j
    decreases j - i
  {
    if i < j { TokenEndsAt(p, i + 1, j); }
  }

  /** A TOKEN that begins with the word, at the start of an argument and up to its end: the root directory and
      what follows the word and its slash, if there is a root. */
  lemma TokenIsReplaced(p: string, env: Environment, i: nat, tail: string)
    requires i == 0 || (i <= |p| && Starts(p[i - 1]))
    requires i + 9 + |tail| <= |p| && p[i..i + 9 + |tail|] == "ACE_ROOT/" + tail && forall k :: 0 <= k < |tail| ==> !Stops(tail[k])
    requires var j := i + 9 + |tail|; j < |p| ==> Stops(p[j])
    ensures var j := i + 9 + |tail|;
      var dir := if env.root == "" then "ACE_ROOT/" else if env.root[|env.root| - 1] == '/' then env.root else env.root + "/";
      Substituted(p, env, i, Outside) == dir + tail + Substituted(p, env, j, Outside)
  {
    var j := i + 9 + |tail|;
    TokenPiece(p, env, i, tail);
    hide *;
    assert Substituted(p, env, i, Outside) == PieceAt(p, env, i, Outside).text + Substituted(p, env, j, Outside) by {
      SubstitutedOn(p, env, i, Outside);
    }
  }

  lemma SubstitutedOn(p: string, env: Environment, i: nat, quote: Quote)
    requires i < |p|
    ensures var piece := PieceAt(p, env, i, quote);
      Substituted(p, env, i, quote) == piece.text + Substituted(p, env, piece.next, piece.quote)
  {
    hide PieceAt;
  }

  lemma TokenPiece(p: string, env: Environment, i: nat, tail: string)
    requires i == 0 || (i <= |p| && Starts(p[i - 1]))
    requires i + 9 + |tail| <= |p| && p[i..i + 9 + |tail|] == "ACE_ROOT/" + tail && forall k :: 0 <= k < |tail| ==> !Stops(tail[k])
    requires var j := i + 9 + |tail|; j < |p| ==> Stops(p[j])
    ensures var dir := if env.root == "" then "ACE_ROOT/" else if env.root[|env.root| - 1] == '/' then env.root else env.root + "/";
      PieceAt(p, env, i, Outside) == Piece(dir + tail, i + 9 + |tail|, Outside)
  {
    TokenStands(p, i, tail);
    var j := i + 9 + |tail|;
    TokenEndsAt(p, i, j);
    assert ("ACE_ROOT/" + tail)[9..] == tail;
    hide TokenEnd, RootAt, NameEnd, Named;
  }

  lemma TokenStands(p: string, i: nat, tail: string)
    requires i == 0 || (i <= |p| && Starts(p[i - 1]))
    requires i + 9 + |tail| <= |p| && p[i..i + 9 + |tail|] == "ACE_ROOT/" + tail && forall k :: 0 <= k < |tail| ==> !Stops(tail[k])
    ensures RootAt(p, i) && p[i] == 'A' && forall k :: i <= k < i + 9 + |tail| ==> !Stops(p[k])
  {
    var j, token := i + 9 + |tail|, "ACE_ROOT/" + tail;
    assert forall k :: 0 <= k < |token| ==> !Stops(token[k]);
    forall k | i <= k < j ensures p[k] == token[k - i] {
      assert p[k] == p[i..j][k - i];
    }
    assert p[i..i + 8] == "ACE_ROOT";
  }

  /** The bare word at the very end: the root directory. */
  lemma WordIsReplaced(p: string, env: Environment, i: nat)
    requires (i == 0 || (i <= |p| && Starts(p[i - 1]))) && i + 8 == |p| && p[i..] == "ACE_ROOT"
    ensures Substituted(p, env, i, Outside) ==
      if env.root == "" then "ACE_ROOT" else if env.root[|env.root| - 1] == '/' then env.root else env.root + "/"
  {
    assert forall k :: i <= k < |p| ==> p[k] == p[i..][k - i] == "ACE_ROOT"[k - i];
    TokenEndsAt(p, i, |p|);
    assert p[i..i + 8] == "ACE_ROOT" && p[i] == 'A' && Substituted(p, env, |p|, Outside) == "";
    hide TokenEnd;
  }

  /** EVERYTHING ELSE IS COPIED: outside quotes, whatever is neither a sigil nor the start of such a token. */
  lemma OtherIsCopied(p: string, env: Environment, i: nat)
    requires i < |p| && p[i] !in "@'\"" && !(i + 8 <= |p| && p[i..i + 8] == "ACE_ROOT")
    ensures Substituted(p, env, i, Outside) == [p[i]] + Substituted(p, env, i + 1, Outside)
  {
    hide NameEnd, TokenEnd, Decimal;
  }

  /** ... the word too, in the middle of an argument or of a longer word. */
  lemma ProseIsCopied(p: string, env: Environment, i: nat)
    requires i + 8 <= |p| && p[i..i + 8] == "ACE_ROOT"
    requires (i > 0 && !Starts(p[i - 1])) || (i + 8 < |p| && p[i + 8] != '/')
    ensures Substituted(p, env, i, Outside) == ['A'] + Substituted(p, env, i + 1, Outside)
  {
    assert p[i] == p[i..i + 8][0];
    hide NameEnd, TokenEnd, Decimal;
  }

  /** ... and whatever is in a quote, which ends at the next mark of its kind that has no backslash before it. */
  lemma QuotedIsCopied(p: string, env: Environment, i: nat, quote: Quote)
    requires i < |p| && quote != Outside
    ensures var mark := if quote == Single then '\'' else '"';
      Substituted(p, env, i, quote) ==
        if p[i] == '\\' && i + 1 < |p| then p[i..i + 2] + Substituted(p, env, i + 2, quote)
        else [p[i]] + Substituted(p, env, i + 1, if p[i] == mark then Outside else quote)
  {
    hide RootAt, NameEnd, TokenEnd, Decimal;
  }

  lemma MarkOpens(p: string, env: Environment, i: nat)
    requires i < |p| && (p[i] == '\'' || p[i] == '"')
    ensures Substituted(p, env, i, Outside) == [p[i]] + Substituted(p, env, i + 1, if p[i] == '\'' then Single else Double)
  {
    hide RootAt, NameEnd, TokenEnd, Decimal;
  }

  // ---- What a quote inside an ACE_ROOT token does --------------------------------------------------------

  const Odd := "ACE_ROOT/' @x'"
  const Seven := Environment(map["x" := 7], "")

  /** The token is copied without looking for quotes in it, so a quote it opens goes unnoticed and a name
      inside that quote is substituted. */
  lemma QuoteInRootToken()
    ensures Substituted(Odd, Seven, 0, Outside) == "ACE_ROOT/' 7'" && Plain(Seven.root) && !NeverInQuotes(Odd, 0, Outside, Start)
    ensures Quoted(Substituted(Odd, Seven, 0, Outside), Start) != Quoted(Odd, Start)
  {
    OddSubstituted();
    OddQuotes();
    hide Quoted, Substituted, Undisturbed, NeverInQuotes;
    if NeverInQuotes(Odd, 0, Outside, Start) {
      NeverIsUndisturbed(Odd, Seven, 0, Outside, Start);
      SubstitutionKeepsBoundaries(Odd, Seven);
    }
  }

  lemma OddSubstituted()
    ensures Substituted(Odd, Seven, 0, Outside) == "ACE_ROOT/' 7'"
  {
    OddPieces();
    hide PieceAt;
    assert Substituted(Odd, Seven, 14, Single) == "";
    assert Substituted(Odd, Seven, 13, Outside) == "'" + "";
    assert Substituted(Odd, Seven, 11, Outside) == "7" + "'";
    assert Substituted(Odd, Seven, 10, Outside) == " " + "7'";
    assert Substituted(Odd, Seven, 0, Outside) == "ACE_ROOT/'" + " 7'";
  }

  lemma OddQuotes()
    ensures Quoted("ACE_ROOT/' 7'", Start) != Quoted(Odd, Start)
  {
    OddSplit();
    HeadPlain();
    QuotesDiffer("ACE_ROOT/", '@', "x'", '7', "'");
    hide *;
  }

  lemma OddSplit()
    ensures Odd == "ACE_ROOT/" + ("' " + ['@'] + "x'")
    ensures "ACE_ROOT/' 7'" == "ACE_ROOT/" + ("' " + ['7'] + "'")
  {}

  lemma HeadPlain()
    ensures Plain("ACE_ROOT/")
  {}

  lemma QuotesDiffer(head: string, a: char, restA: string, b: char, restB: string)
    requires Plain(head) && a != b && a != '\\' && a != '\'' && b != '\\' && b != '\''
    ensures Quoted(head + ("' " + [a] + restA), Start) != Quoted(head + ("' " + [b] + restB), Start)
  {
    PlainPasses(head, "' " + [a] + restA, Start);
    PlainPasses(head, "' " + [b] + restB, Start);
    ThirdQuoted(a, restA);
    ThirdQuoted(b, restB);
    hide Quoted;
  }

  lemma ThirdQuoted(c: char, rest: string)
    requires c != '\\' && c != '\''
    ensures var q := Quoted("' " + [c] + rest, Start); |q| > 2 && q[2] == c
  {
    var inside := Scan(0, Single, false);
    var t := "' " + [c] + rest;
    assert t[1..] == " " + [c] + rest && (" " + [c] + rest)[1..] == [c] + rest && ([c] + rest)[0] == c;
    assert Quoted(t, Start) == "'" + Quoted(t[1..], inside);
    assert Quoted(t[1..], inside) == " " + Quoted([c] + rest, inside);
    assert Quoted([c] + rest, inside)[0] == c;
  }

  lemma OddPieces()
    ensures RootAt(Odd, 0) && TokenEnd(Odd, 0) == 10
    ensures PieceAt(Odd, Seven, 0, Outside) == Piece("ACE_ROOT/'", 10, Outside)
    ensures PieceAt(Odd, Seven, 10, Outside) == Piece(" ", 11, Outside)
    ensures PieceAt(Odd, Seven, 11, Outside) == Piece("7", 13, Outside)
    ensures PieceAt(Odd, Seven, 13, Outside) == Piece("'", 14, Single)
  {
    assert Odd[0..8] == "ACE_ROOT";
    assert TokenEnd(Odd, 10) == 10 && TokenEnd(Odd, 8) == 10 && TokenEnd(Odd, 6) == 10 && TokenEnd(Odd, 4) == 10 && TokenEnd(Odd, 2) == 10;
    assert Odd[0..10] == "ACE_ROOT/'";
    assert NameEnd(Odd, 13) == 13;
    assert Odd[12..13] == "x";
    assert Decimal(7) == "7";
    assert !RootAt(Odd, 10) && !RootAt(Odd, 11);
  }

  // ---- The condition is exact ------------------------------------------------------------------------------

  function Sigils(s: string): nat {
    if s == "" then 0 else (if s[0] == '@' then 1 else 0) + Sigils(s[1..])
  }

  lemma {:induction false} SigilsJoin(a: string, b: string)
    ensures Sigils(a + b) == Sigils(a) + Sigils(b)
    decreases |a|
  {
    if a == "" {
      assert a + b == b;
    } else {
      assert (a + b)[1..] == a[1..] + b;
      SigilsJoin(a[1..], b);
    }
  }

  ghost predicate NoSigil(s: string) {
    forall k :: 0 <= k < |s| ==> s[k] != '@'
  }

  lemma {:induction false} NoSigils(s: string)
    ensures Sigils(s) == 0 <==> NoSigil(s)
  {
    if s != "" {
      NoSigils(s[1..]);
      assert s == [s[0]] + s[1..];
    }
  }

  /** What the quoted spans get of a piece, and what they had of it. */
  ghost function After(p: string, env: Environment, i: nat, quote: Quote, st: Scan): string
    requires i < |p|
  {
    Quoted(PieceAt(p, env, i, quote).text, st)
  }

  ghost function Before(p: string, i: nat, quote: Quote, st: Scan): string
    requires i < |p|
  {
    Quoted(p[i..PieceAt(p, Nowhere, i, quote).next], st)
  }

  /** The quoted spans of the result and of the payload, piece by piece. */
  lemma QuotedByPiece(p: string, env: Environment, i: nat, quote: Quote, st: Scan)
    requires i < |p| && Plain(env.root) && Proper(st)
    ensures var piece := PieceAt(p, env, i, quote);
      var st' := End(p[i..piece.next], st);
      && Proper(st')
      && Quoted(Substituted(p, env, i, quote), st) ==
           After(p, env, i, quote, st) + Quoted(Substituted(p, env, piece.next, piece.quote), st')
      && Quoted(p[i..], st) == Before(p, i, quote, st) + Quoted(p[piece.next..], st')
  {
    var piece := PieceAt(p, env, i, quote);
    PieceInStep(p, env, i, quote, st);
    PieceShape(p, env, i, quote);
    hide PieceAt, Quoted, End;
    QuotedJoin(piece.text, Substituted(p, env, piece.next, piece.quote), st);
    QuotedJoin(p[i..piece.next], p[piece.next..], st);
    assert p[i..] == p[i..piece.next] + p[piece.next..];
  }

  /** A piece that is changed is changed in its head, and inside a quote that shows. */
  lemma PieceShows(p: string, env: Environment, i: nat, quote: Quote, st: Scan)
    requires i < |p| && Plain(env.root) && Proper(st)
    ensures var piece := PieceAt(p, env, i, quote);
      if piece.text == p[i..piece.next] || Open(st) then After(p, env, i, quote, st) == Before(p, i, quote, st)
      else
        && (TokenHere(p, i, quote) || NameHere(p, i, quote))
        && NewHead(p, env, i, quote) != OldHead(p, i, quote)
        && exists rest :: After(p, env, i, quote, st) == NewHead(p, env, i, quote) + rest && Before(p, i, quote, st) == OldHead(p, i, quote) + rest
  {
    var piece := PieceAt(p, env, i, quote);
    PieceParts(p, env, i, quote);
    PieceShape(p, env, i, quote);
    hide PieceAt, Quoted, End, NewHead, OldHead, Copied, Settled, TokenHere, NameHere;
    if piece.text != p[i..piece.next] {
      var new', old', tail := NewHead(p, env, i, quote), OldHead(p, i, quote), Copied(p, i, quote);
      SettledPasses(new', st);
      SettledPasses(old', st);
      QuotedJoin(new', tail, st);
      QuotedJoin(old', tail, st);
      assert Open(st) ==> st.(skip := false) == st;
      var rest := Quoted(tail, st.(skip := false));
      assert !Open(st) ==> After(p, env, i, quote, st) == new' + rest && Before(p, i, quote, st) == old' + rest;
    }
  }

  // ---- Names: they lose their sigils

  /** No name that the scan has inside a quote is changed. */
  ghost predicate NamesKept(p: string, env: Environment, i: nat, quote: Quote, st: Scan)
    requires i <= |p|
    decreases |p| - i
  {
    i == |p| ||
    var piece := PieceAt(p, env, i, quote);
    && (NameHere(p, i, quote) ==> piece.text == p[i..piece.next] || Open(st))
    && NamesKept(p, env, piece.next, piece.quote, End(p[i..piece.next], st))
  }

  lemma HeadSigils(p: string, env: Environment, i: nat, quote: Quote)
    requires i < |p| && NoSigil(env.root)
    ensures NoSigil(NewHead(p, env, i, quote))
    ensures NameHere(p, i, quote) ==> OldHead(p, i, quote) != "" && OldHead(p, i, quote)[0] == '@'
  {
    if NameHere(p, i, quote) {
      DecimalSettled(RidOf(env, p[i + 1..NameEnd(p, i + 1)]));
      RootIsWord(p, i);
    }
    hide RootAt, NameEnd, TokenEnd, Decimal, RidOf;
  }

  lemma PieceSigils(p: string, env: Environment, i: nat, quote: Quote, st: Scan)
    requires i < |p| && Plain(env.root) && NoSigil(env.root) && Proper(st)
    ensures Sigils(After(p, env, i, quote, st)) <= Sigils(Before(p, i, quote, st))
    ensures var piece := PieceAt(p, env, i, quote);
      NameHere(p, i, quote) && piece.text != p[i..piece.next] && !Open(st) ==> Sigils(After(p, env, i, quote, st)) < Sigils(Before(p, i, quote, st))
  {
    var piece := PieceAt(p, env, i, quote);
    PieceShows(p, env, i, quote, st);
    hide PieceAt, After, Before, NewHead, OldHead, NameHere, TokenHere, NoSigil, Sigils;
    if piece.text != p[i..piece.next] && !Open(st) {
      var new', old' := NewHead(p, env, i, quote), OldHead(p, i, quote);
      var rest :| After(p, env, i, quote, st) == new' + rest && Before(p, i, quote, st) == old' + rest;
      SigilsJoin(new', rest);
      SigilsJoin(old', rest);
      HeadSigils(p, env, i, quote);
      NoSigils(new');
      if NameHere(p, i, quote) { FirstSigil(old'); }
    }
  }

  lemma FirstSigil(s: string)
    requires s != "" && s[0] == '@'
    ensures Sigils(s) > 0
  {}

  lemma {:induction false} SigilsFall(p: string, env: Environment, i: nat, quote: Quote, st: Scan)
    requires i <= |p| && Plain(env.root) && NoSigil(env.root) && Proper(st)
    ensures var out, was := Quoted(Substituted(p, env, i, quote), st), Quoted(p[i..], st);
      Sigils(out) <= Sigils(was) && (Sigils(out) == Sigils(was) ==> NamesKept(p, env, i, quote, st))
    decreases |p| - i
  {
    hide PieceAt, Quoted, End, Substituted, After, Before, NameHere, Sigils, NoSigil, Plain;
    if i == |p| {
      NothingSubstituted(p, env, quote);
    } else {
      var piece := PieceAt(p, env, i, quote);
      var st' := End(p[i..piece.next], st);
      QuotedByPiece(p, env, i, quote, st);
      PieceSigils(p, env, i, quote, st);
      SigilsFall(p, env, piece.next, piece.quote, st');
      SigilsJoin(After(p, env, i, quote, st), Quoted(Substituted(p, env, piece.next, piece.quote), st'));
      SigilsJoin(Before(p, i, quote, st), Quoted(p[piece.next..], st'));
    }
  }

  lemma NothingSubstituted(p: string, env: Environment, quote: Quote)
    ensures Substituted(p, env, |p|, quote) == p[|p|..] == ""
  {}

  // ---- Tokens: all of them grow, or all of them shrink

  /** The root directory is at least as long as what it stands for. */
  ghost predicate Longer(env: Environment) { env.root != "" && |Directory(env.root)| >= 9 }

  lemma HeadLengths(p: string, env: Environment, i: nat, quote: Quote)
    requires i < |p| && TokenHere(p, i, quote)
    ensures |OldHead(p, i, quote)| in {8, 9}
    ensures env.root != "" ==> NewHead(p, env, i, quote) == Directory(env.root)
    ensures env.root == "" ==> PieceAt(p, env, i, quote).text == p[i..PieceAt(p, env, i, quote).next]
  {
    TokenHead(p, i);
    RootIsWord(p, i);
    hide RootAt, TokenEnd, NameEnd, Directory;
  }

  lemma PieceLengths(p: string, env: Environment, i: nat, quote: Quote, st: Scan)
    requires i < |p| && Plain(env.root) && Proper(st)
    requires var piece := PieceAt(p, env, i, quote); NameHere(p, i, quote) ==> piece.text == p[i..piece.next] || Open(st)
    ensures var piece := PieceAt(p, env, i, quote);
      var after, before := After(p, env, i, quote, st), Before(p, i, quote, st);
      && (Longer(env) ==> |after| >= |before|) && (!Longer(env) ==> |after| <= |before|)
      && (after == before ==> piece.text == p[i..piece.next] || Open(st))
  {
    var piece := PieceAt(p, env, i, quote);
    PieceShows(p, env, i, quote, st);
    if piece.text != p[i..piece.next] && !Open(st) {
      assert TokenHere(p, i, quote);
      HeadLengths(p, env, i, quote);
      hide PieceAt, After, Before, NewHead, OldHead, NameHere, TokenHere, Directory;
      var new', old' := NewHead(p, env, i, quote), OldHead(p, i, quote);
      var rest :| After(p, env, i, quote, st) == new' + rest && Before(p, i, quote, st) == old' + rest;
      SameHeads(new', old', rest);
    }
    hide PieceAt, After, Before, NewHead, OldHead, NameHere, TokenHere, Directory;
  }

  lemma SameHeads(a: string, b: string, rest: string)
    ensures a + rest == b + rest ==> a == b
  {
    if a + rest == b + rest {
      assert |a + rest| == |b + rest|;
      assert a == (a + rest)[..|a|] && b == (b + rest)[..|b|];
    }
  }

  /** With the names kept, equal quoted spans are equal piece by piece. */
  lemma {:induction false} LengthsTell(p: string, env: Environment, i: nat, quote: Quote, st: Scan)
    requires i <= |p| && Plain(env.root) && Proper(st) && NamesKept(p, env, i, quote, st)
    ensures var out, was := Quoted(Substituted(p, env, i, quote), st), Quoted(p[i..], st);
      && (Longer(env) ==> |out| >= |was|) && (!Longer(env) ==> |out| <= |was|)
      && (out == was ==> Undisturbed(p, env, i, quote, st))
    decreases |p| - i
  {
    hide PieceAt, Quoted, End, Substituted, After, Before, NameHere, Longer, Plain;
    if i == |p| {
      NothingSubstituted(p, env, quote);
    } else {
      var piece := PieceAt(p, env, i, quote);
      var st' := End(p[i..piece.next], st);
      QuotedByPiece(p, env, i, quote, st);
      PieceLengths(p, env, i, quote, st);
      LengthsTell(p, env, piece.next, piece.quote, st');
      SameParts(After(p, env, i, quote, st), Quoted(Substituted(p, env, piece.next, piece.quote), st'),
                Before(p, i, quote, st), Quoted(p[piece.next..], st'));
    }
  }

  lemma SameParts(a: string, b: string, c: string, d: string)
    ensures a + b == c + d && |a| == |c| ==> a == c && b == d
  {
    if a + b == c + d && |a| == |c| {
      assert a == (a + b)[..|a|] && c == (c + d)[..|c|] && b == (a + b)[|a|..] && d == (c + d)[|c|..];
    }
  }

  /** THE EXACT CONDITION. Under whatever names resolve to, and any root directory free of quotes, brackets
      and sigils, the boundaries of a payload are kept if and only if nothing is changed where the scan is
      inside a quote. */
  lemma BoundariesKeptIff(p: string, env: Environment)
    requires Plain(env.root) && NoSigil(env.root)
    ensures Keeps(p, env) <==> Undisturbed(p, env, 0, Outside, Start)
  {
    assert p[0..] == p;
    if Keeps(p, env) {
      SigilsFall(p, env, 0, Outside, Start);
      LengthsTell(p, env, 0, Outside, Start);
    } else if Undisturbed(p, env, 0, Outside, Start) {
      SubstitutionKeepsBoundaries(p, env);
    }
    hide Keeps, Undisturbed;
  }

  // ---- ... and on the payload alone

  /** Nothing that could be changed, a name or a token, is come to where the scan is inside a quote. */
  ghost predicate NeverInQuotes(p: string, i: nat, quote: Quote, st: Scan)
    requires i <= |p|
    decreases |p| - i
  {
    i == |p| ||
    (&& (TokenHere(p, i, quote) || NameHere(p, i, quote) ==> Open(st))
     && var piece := PieceAt(p, Nowhere, i, quote); NeverInQuotes(p, piece.next, piece.quote, End(p[i..piece.next], st)))
  }

  lemma {:induction false} NeverIsUndisturbed(p: string, env: Environment, i: nat, quote: Quote, st: Scan)
    requires i <= |p| && Plain(env.root) && NeverInQuotes(p, i, quote, st)
    ensures Undisturbed(p, env, i, quote, st)
    decreases |p| - i
  {
    if i < |p| {
      var piece := PieceAt(p, env, i, quote);
      PieceShape(p, env, i, quote);
      PieceParts(p, env, i, quote);
      hide PieceAt, End, TokenHere, NameHere, NewHead, OldHead, Copied;
      NeverIsUndisturbed(p, env, piece.next, piece.quote, End(p[i..piece.next], st));
    }
  }

  /** The name of the first piece come to inside a quote, if it is a name. */
  ghost function FirstQuoted(p: string, i: nat, quote: Quote, st: Scan): string
    requires i <= |p| && !NeverInQuotes(p, i, quote, st)
    decreases |p| - i
  {
    if !Open(st) && TokenHere(p, i, quote) then ""
    else if !Open(st) && NameHere(p, i, quote) then p[i + 1..NameEnd(p, i + 1)]
    else var piece := PieceAt(p, Nowhere, i, quote); FirstQuoted(p, piece.next, piece.quote, End(p[i..piece.next], st))
  }

  /** The environment that gives the piece away. */
  function Telling(n: string): Environment { Environment(map[n := 7], "a") }

  lemma TellingChanges(p: string, i: nat, quote: Quote, n: string)
    requires i < |p|
    requires TokenHere(p, i, quote) || (NameHere(p, i, quote) && p[i + 1..NameEnd(p, i + 1)] == n)
    ensures var piece := PieceAt(p, Telling(n), i, quote); piece.text != p[i..piece.next]
  {
    RootIsWord(p, i);
    if TokenHere(p, i, quote) {
      TokenHead(p, i);
      assert Directory("a") == "a/";
    } else {
      assert Decimal(7) == "7" && p[i..NameEnd(p, i + 1)][0] == '@';
    }
    hide RootAt, TokenEnd, NameEnd, Decimal, Directory;
  }

  lemma {:induction false} ToldOnIsDisturbed(p: string, i: nat, quote: Quote, st: Scan)
    requires i <= |p| && !NeverInQuotes(p, i, quote, st)
    ensures !Undisturbed(p, Telling(FirstQuoted(p, i, quote, st)), i, quote, st)
    decreases |p| - i
  {
    var env := Telling(FirstQuoted(p, i, quote, st));
    var piece := PieceAt(p, env, i, quote);
    PieceShape(p, env, i, quote);
    if !Open(st) && (TokenHere(p, i, quote) || NameHere(p, i, quote)) {
      TellingChanges(p, i, quote, FirstQuoted(p, i, quote, st));
      hide PieceAt, End, TokenHere, NameHere;
    } else {
      hide PieceAt, End, TokenHere, NameHere;
      ToldOnIsDisturbed(p, piece.next, piece.quote, End(p[i..piece.next], st));
    }
  }

  /** A payload in which a piece is come to inside a quote is broken by some environment. */
  lemma QuotedPieceIsSeen(p: string)
    requires !NeverInQuotes(p, 0, Outside, Start)
    ensures exists env: Environment :: Plain(env.root) && !Keeps(p, env)
  {
    var env := Telling(FirstQuoted(p, 0, Outside, Start));
    ToldOnIsDisturbed(p, 0, Outside, Start);
    BoundariesKeptIff(p, env);
    assert Plain(env.root) && !Keeps(p, env);
    hide Keeps;
  }

  /** ON THE PAYLOAD ALONE: its boundaries are kept whatever names resolve to and wherever the tree is, if
      and only if no name and no token is come to where the scan is inside a quote. */
  lemma AlwaysKeptIff(p: string)
    ensures (forall env: Environment :: Plain(env.root) ==> Keeps(p, env)) <==> NeverInQuotes(p, 0, Outside, Start)
  {
    hide Keeps, NeverInQuotes, Plain;
    if NeverInQuotes(p, 0, Outside, Start) {
      forall env: Environment | Plain(env.root) ensures Keeps(p, env) {
        NeverIsUndisturbed(p, env, 0, Outside, Start);
        SubstitutionKeepsBoundaries(p, env);
      }
    } else {
      QuotedPieceIsSeen(p);
    }
  }

  // ---- A simple way to meet it

  /** Every token that the walk comes to closes the quotes that it opens. */
  ghost predicate ClosedTokens(p: string, i: nat, quote: Quote)
    requires i <= |p|
    decreases |p| - i
  {
    i == |p| ||
    (&& (TokenHere(p, i, quote) ==> Open(End(p[i..TokenEnd(p, i)], Start)))
     && var piece := PieceAt(p, Nowhere, i, quote); ClosedTokens(p, piece.next, piece.quote))
  }

  /** A backslash that ends the payload inside a quote. */
  ghost predicate Dangling(p: string, i: nat, quote: Quote) {
    quote != Outside && i + 1 == |p| && p[i] == '\\'
  }

  /** A QUOTE HIDES what is in it: brackets, the other mark, and its own mark after a backslash. */
  lemma QuoteHides(mark: char, t: string, st: Scan)
    requires (mark == '\'' || mark == '"') && st.quote == (if mark == '\'' then Single else Double) && !st.skip
    requires forall k :: 0 <= k < |t| ==> t[k] != mark && t[k] != '\\'
    ensures End(t + [mark], st) == Scan(st.depth, Outside, false) && End(['\\', mark] + t, st) == st
  {
    StaysQuoted(mark, t, st);
    EndJoin(t, [mark], st);
    EndOne(mark, st);
    EndJoin(['\\', mark], t, st);
    EndJoin(['\\'], [mark], st);
    EndOne('\\', st);
    EndOne(mark, st.(skip := true));
    assert ['\\'] + [mark] == ['\\', mark];
    hide End;
  }

  lemma {:induction false} StaysQuoted(mark: char, t: string, st: Scan)
    requires (mark == '\'' || mark == '"') && st.quote == (if mark == '\'' then Single else Double) && !st.skip
    requires forall k :: 0 <= k < |t| ==> t[k] != mark && t[k] != '\\'
    ensures End(t, st) == st
    decreases |t|
  {
    if t != "" { StaysQuoted(mark, t[1..], st); }
  }

  /** Outside quotes brackets count, marks open a quote, and nothing else matters, a backslash included. */
  lemma OpenStep(c: char, d: int)
    ensures Step(Scan(d, Outside, false), c) ==
      if c == '(' then Scan(d + 1, Outside, false) else if c == ')' then Scan(d - 1, Outside, false)
      else Scan(d, if c == '\'' then Single else if c == '"' then Double else Outside, false)
  {}

  /** How deep the brackets are does not matter to the quotes. */
  lemma {:induction false} DepthAside(t: string, st: Scan, d: int)
    ensures End(t, st.(depth := d)).quote == End(t, st).quote && End(t, st.(depth := d)).skip == End(t, st).skip
    decreases |t|
  {
    if t != "" {
      var u, v := Step(st, t[0]), Step(st.(depth := d), t[0]);
      assert v == u.(depth := v.depth);
      DepthAside(t[1..], u, v.depth);
    }
  }

  lemma EndOne(c: char, st: Scan)
    ensures End([c], st) == Step(st, c)
  {
    assert [c][1..] == "";
  }

  /** Where the walk and the scan agree, they agree after a piece that closes its quotes. */
  lemma StaysInStep(p: string, i: nat, st: Scan)
    requires i < |p| && !st.skip && ClosedTokens(p, i, st.quote) && !Dangling(p, i, st.quote)
    ensures var piece := PieceAt(p, Nowhere, i, st.quote);
      var st' := End(p[i..piece.next], st);
      st'.quote == piece.quote && !st'.skip
  {
    var piece := PieceAt(p, Nowhere, i, st.quote);
    RootIsWord(p, i);
    if TokenHere(p, i, st.quote) {
      DepthAside(p[i..TokenEnd(p, i)], Start, st.depth);
      hide RootAt, TokenEnd, NameEnd, End;
    } else if st.quote == Outside && p[i] == '@' {
      WordSettled(p, i);
      SettledPasses(p[i..piece.next], st);
      hide RootAt, TokenEnd, NameEnd, End, Settled;
    } else if st.quote != Outside && p[i] == '\\' {
      assert p[i..piece.next] == [p[i]] + [p[i + 1]];
      EndJoin([p[i]], [p[i + 1]], st);
      EndOne(p[i], st);
      EndOne(p[i + 1], Step(st, p[i]));
      hide RootAt, TokenEnd, NameEnd, End;
    } else {
      assert p[i..piece.next] == [p[i]];
      EndOne(p[i], st);
      hide RootAt, TokenEnd, NameEnd, End;
    }
  }

  lemma {:induction false} ClosedIsNever(p: string, i: nat, st: Scan)
    requires i <= |p| && !st.skip && ClosedTokens(p, i, st.quote)
    ensures NeverInQuotes(p, i, st.quote, st)
    decreases |p| - i
  {
    if i < |p| {
      var piece := PieceAt(p, Nowhere, i, st.quote);
      var st' := End(p[i..piece.next], st);
      if Dangling(p, i, st.quote) {
        assert piece.next == |p|;
      } else {
        StaysInStep(p, i, st);
        ClosedIsNever(p, piece.next, st');
      }
      hide PieceAt, End;
    }
  }

  /** So quotes and brackets in a token do no harm, as long as the token closes its own quotes. */
  lemma ClosedTokensSuffice(p: string, env: Environment)
    requires ClosedTokens(p, 0, Outside) && Plain(env.root)
    ensures Keeps(p, env)
  {
    ClosedIsNever(p, 0, Start);
    AlwaysKeptIff(p);
    hide Keeps;
  }

  lemma {:induction false} BalancedEnds(p: string, st: Scan)
    requires BalancedFrom(p, st)
    ensures End(p, st) == Start
    decreases |p|
  {
    if p != "" { BalancedEnds(p[1..], Step(st, p[0])); }
  }

  /** A payload that closes, as every parsed payload does, goes on to close, with its quoted spans. */
  ghost predicate StillCloses(p: string, env: Environment) {
    var out := Substituted(p, env, 0, Outside);
    Quoted(out, Start) == Quoted(p, Start) && Closes(out)
  }

  /** ... and for the payloads that the parser delivers, that is all there is to keep. */
  lemma ParsedPayloadsStillCloseIff(p: string)
    requires Closes(p)
    ensures (forall env: Environment :: Plain(env.root) ==> StillCloses(p, env)) <==> NeverInQuotes(p, 0, Outside, Start)
    ensures forall env: Environment :: Plain(env.root) && NoSigil(env.root) ==> (StillCloses(p, env) <==> Undisturbed(p, env, 0, Outside, Start))
  {
    AlwaysKeptIff(p);
    forall env: Environment
      ensures StillCloses(p, env) <==> Keeps(p, env)
      ensures Plain(env.root) && NoSigil(env.root) ==> (Keeps(p, env) <==> Undisturbed(p, env, 0, Outside, Start))
    {
      StillClosesIsKept(p, env);
      if Plain(env.root) && NoSigil(env.root) { BoundariesKeptIff(p, env); }
    }
    hide Keeps, StillCloses, NeverInQuotes, Undisturbed, Plain, NoSigil, Closes;
  }

  lemma StillClosesIsKept(p: string, env: Environment)
    requires Closes(p)
    ensures StillCloses(p, env) <==> Keeps(p, env)
  {
    var out := Substituted(p, env, 0, Outside);
    ClosesIffBalanced(p, "");
    ClosesIffBalanced(out, "");
    hide Substituted, Quoted, End, Closes;
    BalancedEnds(p, Start);
    if Closes(out) { BalancedEnds(out, Start); }
  }
}
