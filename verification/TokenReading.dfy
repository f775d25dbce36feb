/** What the extractors make of bytes that `<<` has not written -- unquoted tokens, tokens in either quote, ends
    that are missing, things that are no number -- and what `<<` makes of a string that does not fit
    (core/Buffer.h:320-341, 365-421, 462-492). The bytes are written out here: 32 and 44 are the blank and the
    comma, 34 and 39 the quotes, 92 the backslash. */
module TokenReading {
  import opened TokenBuffer

  // ---- Delimiters --------------------------------------------------------------------------------------

  /** The delimiters at the front are skipped, all of them and nothing else. */
  lemma {:induction false} SkippedMeans(t: Bytes)
    ensures forall i :: 0 <= i < Skipped(t) ==> t[i] == 32 || t[i] == 44
    ensures Skipped(t) < |t| ==> t[Skipped(t)] != 32 && t[Skipped(t)] != 44
  {
    if t != [] && Delimiter(t[0]) {
      SkippedMeans(t[1..]);
      assert forall i :: 0 < i < Skipped(t) ==> t[i] == t[1..][i - 1];
    }
  }

  // ---- Unquoted tokens ---------------------------------------------------------------------------------

  ghost predicate NoDelimiter(w: Bytes) { forall i :: 0 <= i < |w| ==> w[i] != 32 && w[i] != 44 }

  /** What can end an unquoted token. */
  ghost predicate EndsToken(rest: Bytes) { rest == [] || rest[0] == 32 || rest[0] == 44 }

  lemma {:induction false} BareIsWord(w: Bytes, rest: Bytes)
    requires NoDelimiter(w) && EndsToken(rest)
    ensures Bare(w + rest) == |w|
    decreases |w|
  {
    if w == [] {
      assert w + rest == rest;
    } else {
      assert (w + rest)[1..] == w[1..] + rest;
      BareIsWord(w[1..], rest);
    }
  }

  /** AN UNQUOTED TOKEN is read as it is, backslashes and all, up to the next delimiter; it is used up, and the
      delimiters after it. */
  lemma BareToken(w: Bytes, rest: Bytes)
    requires w != [] && NoDelimiter(w) && w[0] != 34 && w[0] != 39 && EndsToken(rest)
    ensures GetString(w + rest) == (w, |w| + Skipped(rest))
  {
    BareIsWord(w, rest);
    var t := w + rest;
    assert t[..|w|] == w && t[|w|..] == rest && t[0] == w[0];
    hide Bare, Skipped;
  }

  // ---- Tokens in quotes --------------------------------------------------------------------------------

  /** Escaped for either quote: backslashes and that quote only. */
  function EscapeFor(quote: byte, val: Bytes): Bytes {
    if val == [] then []
    else (if val[0] == quote || val[0] == 92 then [92, val[0]] else [val[0]]) + EscapeFor(quote, val[1..])
  }

  lemma {:induction false} UnquoteFor(quote: byte, val: Bytes, rest: Bytes)
    requires quote != 92
    ensures Unquote(EscapeFor(quote, val) + [quote] + rest, quote) == (val, |EscapeFor(quote, val)| + 1)
    decreases |val|
  {
    var t := EscapeFor(quote, val) + [quote] + rest;
    if val == [] {
      assert t == [quote] + rest;
    } else {
      var tail := EscapeFor(quote, val[1..]) + [quote] + rest;
      UnquoteFor(quote, val[1..], rest);
      assert val == [val[0]] + val[1..];
      if val[0] == quote || val[0] == 92 {
        assert t == [92, val[0]] + tail && t[2..] == tail;
      } else {
        assert t == [val[0]] + tail && t[1..] == tail;
      }
    }
  }

  lemma QuotedAt(t: Bytes, val: Bytes, n: nat)
    requires t != [] && (t[0] == QUOTE || t[0] == APOSTROPHE) && Unquote(t[1..], t[0]) == (val, n)
    ensures n + 1 <= |t| && GetString(t) == (val, n + 1 + Skipped(t[n + 1..]))
  {
    hide Unquote, Skipped;
  }

  /** A TOKEN IN QUOTES, single or double, is read back whole, for any bytes; a quote of the other kind needs no
      escape. */
  lemma QuotedToken(t: Bytes, val: Bytes, rest: Bytes)
    requires t != [] && (t[0] == 34 || t[0] == 39) && t[1..] == EscapeFor(t[0], val) + [t[0]] + rest
    ensures GetString(t) == (val, |EscapeFor(t[0], val)| + 2 + Skipped(rest))
  {
    var n := |EscapeFor(t[0], val)| + 1;
    UnquoteFor(t[0], val, rest);
    assert t[1..][n..] == rest && t[n + 1..] == t[1..][n..];
    hide *;
    QuotedAt(t, val, n);
  }

  lemma {:induction false} UnquoteToEnd(quote: byte, t: Bytes)
    requires forall i :: 0 <= i < |t| ==> t[i] != quote && t[i] != 92
    ensures Unquote(t, quote) == (t, |t|)
  {
    if t != [] {
      UnquoteToEnd(quote, t[1..]);
      assert t == [t[0]] + t[1..];
    }
  }

  /** A quote that is not closed takes everything. */
  lemma OpenToken(quote: byte, t: Bytes)
    requires quote == 34 || quote == 39
    requires forall i :: 0 <= i < |t| ==> t[i] != quote && t[i] != 92
    ensures GetString([quote] + t) == (t, |t| + 1)
  {
    UnquoteToEnd(quote, t);
    assert ([quote] + t)[1..] == t && ([quote] + t)[|t| + 1..] == [];
    hide Unquote;
  }

  // ---- Numbers -----------------------------------------------------------------------------------------

  ghost predicate Digits(d: Bytes) { forall i :: 0 <= i < |d| ==> Digit(d[i]) }

  /** A NUMBER IS FOUND exactly if there is a digit and the type holds the value; then it is the whole run of
      digits with its sign. */
  lemma FromCharsIff(range: Range, t: Bytes, minus: bool, d: Bytes, rest: Bytes)
    requires if minus then t != [] && t[0] == MINUS && t[1..] == d + rest else t == d + rest && (t == [] || t[0] != MINUS)
    requires Digits(d) && (rest == [] || !Digit(rest[0]))
    ensures var v: int := if minus then -(ValueOf(d) as int) else ValueOf(d);
      && (FromChars(range, t).Some? <==> d != [] && In(range, v))
      && (FromChars(range, t).Some? ==> FromChars(range, t).value.0 == v && FromChars(range, t).value.1 == |t| - |rest|)
  {
    DigitRunJoin(d, rest);
    assert (d + rest)[..|d|] == d && t[0..] == t;
    hide DigitRun, ValueOf;
  }

  /** Where there is none, the variable is left alone and the token skipped, with the delimiters after it. */
  lemma NoNumber(range: Range, w: Bytes, rest: Bytes)
    requires w + rest != [] && NoDelimiter(w) && EndsToken(rest) && FromChars(range, w + rest).None?
    ensures GetNumber(range, w + rest) == (None, |w| + Skipped(rest))
  {
    BareIsWord(w, rest);
    assert (w + rest)[|w|..] == rest;
    hide Bare, Skipped, FromChars;
  }

  // ---- Strings that do not fit -------------------------------------------------------------------------

  ghost predicate RoomAt(cap: nat, at: nat, val: Bytes, j: nat)
    requires j <= |val|
  {
    at + |Escape(val[..j])| < Minus(cap, 3)
  }

  /** The loop takes characters as long as there is room for one more pair, and not one more. */
  lemma {:induction false} TakenIsMost(cap: nat, at: nat, val: Bytes, n: nat)
    requires n <= |val|
    ensures var k := Taken(cap, at, val, n);
      && (forall j :: 0 <= j < k ==> RoomAt(cap, at, val, j)) && (k < n ==> !RoomAt(cap, at, val, k))
  {
    if n > 0 {
      TakenIsMost(cap, at, val, n - 1);
      hide RoomAt;
      assert RoomAt(cap, at, val, n - 1) <==> at + |Escape(val[..n - 1])| < Minus(cap, 3) by { RoomMeans(cap, at, val, n - 1); }
    }
  }

  lemma RoomMeans(cap: nat, at: nat, val: Bytes, j: nat)
    requires j <= |val|
    ensures RoomAt(cap, at, val, j) <==> at + |Escape(val[..j])| < Minus(cap, 3)
  {}

  /** A STRING THAT DOES NOT FIT is cut, not refused and not split: what is read back is what the loop took of it,
      and nothing of the token is left. */
  lemma CutStringReadsBack(cap: nat, data: Bytes, val: Bytes)
    requires |data| < Minus(cap, 4)
    ensures var all, k := PutString(cap, data, val), Taken(cap, |data| + 1, val, |val|);
      data <= all && GetString(all[|data|..]) == (val[..k], |all| - |data|)
  {
    var k := Taken(cap, |data| + 1, val, |val|);
    var token := Token(Text(val[..k]));
    var all := PutString(cap, data, val);
    PutIsToken(cap, data, val);
    hide *;
    AfterPrefix(data, token, all);
    ReadsCut(all[|data|..], val[..k], all[|data + token|..]);
  }

  lemma ReadsCut(t: Bytes, val: Bytes, rest: Bytes)
    requires t == Token(Text(val)) + rest && Follows(rest) && |rest| <= 1
    ensures GetString(t) == (val, |t|)
  {
    GetToken(Range(0, 0), Text(val), rest);
    GetTextIs(t, val);
    hide Token, GetString, Get;
  }

  lemma AfterPrefix(data: Bytes, token: Bytes, all: Bytes)
    requires data <= all && data + token <= all
    ensures all[|data|..] == token + all[|data + token|..]
  {
    assert all[..|data + token|] == data + token;
    assert forall i :: 0 <= i < |token| ==> all[|data| + i] == (data + token)[|data| + i] == token[i];
  }

  lemma PutIsToken(cap: nat, data: Bytes, val: Bytes)
    requires |data| < Minus(cap, 4)
    ensures var all, token := PutString(cap, data, val), Token(Text(val[..Taken(cap, |data| + 1, val, |val|)]));
      data <= all && data + token <= all && Follows(all[|data + token|..]) && |all[|data + token|..]| <= 1
  {
    var cut := val[..Taken(cap, |data| + 1, val, |val|)];
    hide Taken, Escape;
    assert data + [QUOTE] + Escape(cut) + [QUOTE] == data + Token(Text(cut));
  }

  lemma GetTextIs(t: Bytes, val: Bytes)
    ensures Get(Range(0, 0), t, Text(val)) == (Some(Text(GetString(t).0)), GetString(t).1)
  {}

  /** An integer that does not fit is not written at all. */
  lemma NumberFitsOrNot(cap: nat, data: Bytes, v: int)
    ensures PutNumber(cap, data, v) == data <==> |data| + |Number(v)| + 1 > cap
    ensures |data| + |Number(v)| + 1 <= cap ==> data + Number(v) <= PutNumber(cap, data, v)
  {
    TokenStarts(Whole(v));
    hide Number;
  }

  /** The bytes themselves: decimal digits with a leading minus, and double quotes around a string in which the
      double quote and the backslash are escaped, by a backslash. */
  lemma BytesWritten(d: nat, b: byte)
    requires d < 10
    ensures Number(d) == [(48 + d) as byte] && (d > 0 ==> Number(-(d as int)) == [45, (48 + d) as byte])
    ensures Token(Text([b])) == if b == 34 || b == 92 then [34, 92, b, 34] else [34, b, 34]
    ensures Delimited(2, []) == [32] && Delimited(1, []) == []
  {
    assert [b][..0] == [] && Escape([b]) == Escape([]) + EscapeOne(b);
  }
}
