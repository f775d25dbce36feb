/** The token codec of the fixed-size buffer: `<<` and `>>` for strings and integers
    (core/Buffer.h:94-160, 320-341, 365-421, 443-492).

    A buffer's logical content is its written prefix and a read offset. The integer type is any signed
    range; to_chars and from_chars are written out. */
module TokenBuffer {

  newtype byte = x: int | 0 <= x < 256

  type Bytes = seq<byte>

  const QUOTE: byte := 34
  const APOSTROPHE: byte := 39
  const BACKSLASH: byte := 92
  const SPACE: byte := 32
  const COMMA: byte := 44
  const MINUS: byte := 45
  const ZERO: byte := 48

  predicate Delimiter(b: byte) { b == SPACE || b == COMMA }

  predicate Digit(b: byte) { ZERO <= b < ZERO + 10 }

  /** The values of the integer type. */
  datatype Range = Range(lo: int, hi: int)

  predicate In(range: Range, v: int) { range.lo <= v <= range.hi }

  // ---- The arithmetic of size_t -----------------------------------------------------------------------

  const SIZE_MAX: nat := 0x1_0000_0000_0000_0000

  /** N - k in size_t. */
  function Minus(n: nat, k: nat): nat
    requires k <= SIZE_MAX
  {
    if n >= k then n - k else SIZE_MAX + n - k
  }

  // ---- Writing: what is appended ----------------------------------------------------------------------

  predicate Special(b: byte) { b == QUOTE || b == BACKSLASH }

  function Escape(val: Bytes): Bytes {
    if val == [] then [] else Escape(val[..|val| - 1]) + EscapeOne(val[|val| - 1])
  }

  function EscapeOne(b: byte): Bytes {
    if Special(b) then [BACKSLASH, b] else [b]
  }

  /** How many characters of the string go in before the room check stops the loop, in a buffer of
      `cap` bytes of which `at` are written when the loop starts. */
  function Taken(cap: nat, at: nat, val: Bytes, n: nat): (k: nat)
    requires n <= |val|
    ensures k <= n
  {
    if n == 0 then 0
    else
      var k := Taken(cap, at, val, n - 1);
      if k < n - 1 || at + |Escape(val[..n - 1])| >= Minus(cap, 3) then k else n
  }

  /** A delimiter, if there is room for it before the last byte. */
  function Delimited(cap: nat, data: Bytes): Bytes {
    if |data| + 1 < cap then data + [SPACE] else data
  }

  function PutString(cap: nat, data: Bytes, val: Bytes): Bytes {
    if |data| >= Minus(cap, 4) then data
    else Delimited(cap, data + [QUOTE] + Escape(val[..Taken(cap, |data| + 1, val, |val|)]) + [QUOTE])
  }

  function Decimal(v: nat): Bytes {
    if v < 10 then [ZERO + v as byte] else Decimal(v / 10) + [ZERO + (v % 10) as byte]
  }

  function Number(v: int): Bytes {
    if v < 0 then [MINUS] + Decimal(-v) else Decimal(v)
  }

  /** to_chars needs room for all of the digits before the last byte. */
  function PutNumber(cap: nat, data: Bytes, v: int): Bytes {
    if |data| + 1 >= cap || |data| + |Number(v)| + 1 > cap then data
    else Delimited(cap, data + Number(v))
  }

  // ---- Reading: what is found, and how much is used up --------------------------------------------------

  /** The delimiters at the front. */
  function Skipped(t: Bytes): (n: nat)
    ensures n <= |t|
  {
    if t != [] && Delimiter(t[0]) then 1 + Skipped(t[1..]) else 0
  }

  /** An unquoted token ends at the first delimiter. */
  function Bare(t: Bytes): (n: nat)
    ensures n <= |t|
  {
    if t == [] || Delimiter(t[0]) then 0 else 1 + Bare(t[1..])
  }

  /** The inside of a quoted token, up to its closing quote or the end. */
  function Unquote(t: Bytes, quote: byte): (r: (Bytes, nat))
    ensures r.1 <= |t|
  {
    if t == [] then ([], 0)
    else if t[0] == BACKSLASH then
      if |t| == 1 then ([], 1)
      else var (val, n) := Unquote(t[2..], quote); ([t[1]] + val, n + 2)
    else if t[0] == quote then ([], 1)
    else var (val, n) := Unquote(t[1..], quote); ([t[0]] + val, n + 1)
  }

  /** The string at the front, and where it ends. */
  function TokenAt(t: Bytes): (r: (Bytes, nat))
    requires t != []
    ensures r.1 <= |t|
  {
    if t[0] == QUOTE || t[0] == APOSTROPHE then var (val, n) := Unquote(t[1..], t[0]); (val, n + 1)
    else (t[..Bare(t)], Bare(t))
  }

  /** The string at the front and how far it reaches, its trailing delimiters included. */
  function GetString(t: Bytes): (r: (Bytes, nat))
    ensures r.1 <= |t|
  {
    if t == [] then ([], 0) else var (val, n) := TokenAt(t); (val, n + Skipped(t[n..]))
  }

  function DigitRun(t: Bytes): (n: nat)
    ensures n <= |t| && forall i :: 0 <= i < n ==> Digit(t[i])
  {
    if t == [] || !Digit(t[0]) then 0 else 1 + DigitRun(t[1..])
  }

  function ValueOf(t: Bytes): nat
    requires forall i :: 0 <= i < |t| ==> Digit(t[i])
  {
    if t == [] then 0
    else
      assert Digit(t[|t| - 1]);
      ValueOf(t[..|t| - 1]) * 10 + (t[|t| - 1] as int - ZERO as int)
  }

  datatype Option<T> = None | Some(value: T)

  /** from_chars: the longest number at the front, if there is one and the type holds it. */
  function FromChars(range: Range, t: Bytes): (r: Option<(int, nat)>)
    ensures r.Some? ==> r.value.1 <= |t|
  {
    var sign := if t != [] && t[0] == MINUS then 1 else 0;
    var n := DigitRun(t[sign..]);
    if n == 0 then None
    else
      var digits: int := ValueOf(t[sign..][..n]);
      var v := if sign == 1 then -digits else digits;
      if In(range, v) then Some((v, sign + n)) else None
  }

  /** The number at the front, if there is one, and how far the extraction goes. */
  function GetNumber(range: Range, t: Bytes): (r: (Option<int>, nat))
    ensures r.1 <= |t|
  {
    if t == [] then (None, 0)
    else
      var found := FromChars(range, t);
      var n := if found.Some? then found.value.1 else Bare(t);
      (if found.Some? then Some(found.value.0) else None, n + Skipped(t[n..]))
  }

  // ---- One token ---------------------------------------------------------------------------------------

  lemma {:induction false} EscapeJoin(a: Bytes, b: Bytes)
    ensures Escape(a + b) == Escape(a) + Escape(b)
    decreases |b|
  {
    if b == [] {
      assert a + b == a;
    } else {
      var last := |b| - 1;
      assert (a + b)[..|a + b| - 1] == a + b[..last] && (a + b)[|a + b| - 1] == b[last];
      EscapeJoin(a, b[..last]);
    }
  }

  lemma EscapeHead(val: Bytes)
    requires val != []
    ensures Escape(val) == EscapeOne(val[0]) + Escape(val[1..])
  {
    var one := [val[0]];
    EscapeJoin(one, val[1..]);
    assert one + val[1..] == val;
    assert one[..0] == [] && Escape([]) == [];
    assert Escape(one) == EscapeOne(val[0]);
    hide Escape, EscapeOne;
  }

  /** Escaping is undone by the extractor, for arbitrary bytes. */
  lemma {:induction false} UnquoteEscape(val: Bytes, rest: Bytes)
    ensures Unquote(Escape(val) + [QUOTE] + rest, QUOTE) == (val, |Escape(val)| + 1)
    decreases |val|
  {
    hide Escape, Unquote, EscapeOne;
    if val == [] {
      UnquoteNothing(rest);
    } else {
      EscapeHead(val);
      UnquoteEscape(val[1..], rest);
      var tail := Escape(val[1..]) + [QUOTE] + rest;
      UnquoteOne(val[0], val[1..], tail, |Escape(val[1..])| + 1);
      assert Escape(val) + [QUOTE] + rest == EscapeOne(val[0]) + tail;
      assert val == [val[0]] + val[1..];
    }
  }

  lemma UnquoteNothing(rest: Bytes)
    ensures Unquote(Escape([]) + [QUOTE] + rest, QUOTE) == ([], 1) && Escape([]) == []
  {
    assert Escape([]) + [QUOTE] + rest == [QUOTE] + rest;
  }

  lemma UnquoteOne(b: byte, val: Bytes, tail: Bytes, n: nat)
    requires Unquote(tail, QUOTE) == (val, n)
    ensures Unquote(EscapeOne(b) + tail, QUOTE) == ([b] + val, n + |EscapeOne(b)|)
  {
    var t := EscapeOne(b) + tail;
    if Special(b) { assert t[2..] == tail; } else { assert t[1..] == tail; }
  }

  lemma {:induction false} DecimalDigits(v: nat)
    ensures |Decimal(v)| >= 1 && (forall i :: 0 <= i < |Decimal(v)| ==> Digit(Decimal(v)[i])) && ValueOf(Decimal(v)) == v
  {
    if v >= 10 {
      DecimalDigits(v / 10);
      var d := Decimal(v);
      assert d[..|d| - 1] == Decimal(v / 10);
    }
  }

  lemma {:induction false} DigitRunJoin(d: Bytes, rest: Bytes)
    requires forall i :: 0 <= i < |d| ==> Digit(d[i])
    requires rest == [] || !Digit(rest[0])
    ensures DigitRun(d + rest) == |d|
    decreases |d|
  {
    if d == [] {
      assert d + rest == rest;
    } else {
      assert (d + rest)[1..] == d[1..] + rest;
      DigitRunJoin(d[1..], rest);
    }
  }

  lemma FromCharsNumber(range: Range, v: int, rest: Bytes)
    requires In(range, v) && (rest == [] || !Digit(rest[0]))
    ensures FromChars(range, Number(v) + rest) == Some((v, |Number(v)|))
  {
    var n := if v < 0 then -v else v;
    DecimalDigits(n);
    NumberSplits(v, rest);
    hide Decimal, DigitRun, ValueOf, FromChars, Number, Digit;
    if v < 0 {
      FromCharsSigned(range, Decimal(n), rest);
    } else {
      FromCharsUnsigned(range, Decimal(n), rest);
    }
  }

  lemma NumberSplits(v: int, rest: Bytes)
    ensures v < 0 ==> Number(v) + rest == [MINUS] + (Decimal(-v) + rest) && |Number(v)| == |Decimal(-v)| + 1
    ensures v >= 0 ==> Number(v) + rest == Decimal(v) + rest && |Number(v)| == |Decimal(v)|
  {}

  lemma FromCharsSigned(range: Range, d: Bytes, rest: Bytes)
    requires d != [] && (forall i :: 0 <= i < |d| ==> Digit(d[i])) && (rest == [] || !Digit(rest[0]))
    ensures In(range, -(ValueOf(d) as int)) ==> FromChars(range, [MINUS] + (d + rest)) == Some((-(ValueOf(d) as int), |d| + 1))
  {
    DigitRunJoin(d, rest);
    hide DigitRun, ValueOf;
    var t := [MINUS] + (d + rest);
    assert t[1..] == d + rest && (d + rest)[..|d|] == d;
  }

  lemma FromCharsUnsigned(range: Range, d: Bytes, rest: Bytes)
    requires d != [] && (forall i :: 0 <= i < |d| ==> Digit(d[i])) && (rest == [] || !Digit(rest[0]))
    ensures In(range, ValueOf(d)) ==> FromChars(range, d + rest) == Some((ValueOf(d), |d|))
  {
    DigitRunJoin(d, rest);
    hide DigitRun, ValueOf;
    var t := d + rest;
    assert t[0] == d[0] && Digit(d[0]) && t[0..] == t && t[..|d|] == d;
  }

  // ---- Whole lists ---------------------------------------------------------------------------------------

  datatype Item = Text(val: Bytes) | Whole(v: int)

  function Token(item: Item): Bytes {
    match item
    case Text(val) => [QUOTE] + Escape(val) + [QUOTE]
    case Whole(v) => Number(v)
  }

  function Put(cap: nat, data: Bytes, item: Item): Bytes {
    match item
    case Text(val) => PutString(cap, data, val)
    case Whole(v) => PutNumber(cap, data, v)
  }

  /** Where the string writer stays inside the buffer (StringStaysInsideIff). */
  predicate Inside(cap: nat, written: nat) {
    cap >= 4 || (cap == 3 && written == 0)
  }

  /** The item goes in whole. */
  ghost predicate Fits(cap: nat, data: Bytes, item: Item) {
    match item
    case Text(val) => Inside(cap, |data|) && |data| < Minus(cap, 4) && Taken(cap, |data| + 1, val, |val|) == |val|
    case Whole(v) => |data| + 1 < cap && |data| + |Number(v)| + 1 <= cap
  }

  function PutAll(cap: nat, items: seq<Item>): Bytes {
    if items == [] then [] else Put(cap, PutAll(cap, items[..|items| - 1]), items[|items| - 1])
  }

  ghost predicate AllFit(cap: nat, items: seq<Item>) {
    items != [] ==> AllFit(cap, items[..|items| - 1]) && Fits(cap, PutAll(cap, items[..|items| - 1]), items[|items| - 1])
  }

  ghost predicate AllIn(range: Range, items: seq<Item>) {
    forall i :: 0 <= i < |items| && items[i].Whole? ==> In(range, items[i].v)
  }

  /** What an extraction of the item's own type gives, and how far it goes. */
  function Get(range: Range, t: Bytes, like: Item): (r: (Option<Item>, nat))
    ensures r.1 <= |t|
  {
    match like
    case Text(_) => var (val, n) := GetString(t); (Some(Text(val)), n)
    case Whole(_) => var (v, n) := GetNumber(range, t); (if v.Some? then Some(Whole(v.value)) else None, n)
  }

  /** Extracting a list of these types, in order. */
  function GetAll(range: Range, t: Bytes, like: seq<Item>): (r: (seq<Option<Item>>, nat))
    ensures r.1 <= |t|
  {
    if like == [] then ([], 0)
    else
      var (first, n) := Get(range, t, like[0]);
      var (rest, m) := GetAll(range, t[n..], like[1..]);
      ([first] + rest, n + m)
  }

  function Stream(items: seq<Item>): Bytes {
    if items == [] then [] else Token(items[0]) + [SPACE] + Stream(items[1..])
  }

  lemma {:induction false} StreamEnd(items: seq<Item>)
    requires items != []
    ensures Stream(items) == Stream(items[..|items| - 1]) + Token(items[|items| - 1]) + [SPACE]
    decreases |items|
  {
    var n := |items| - 1;
    if n > 0 {
      StreamEnd(items[1..]);
      assert items[1..][..n - 1] == items[..n][1..];
      assert items[1..][n - 1] == items[n];
    }
  }

  /** An item that fits is appended whole, with its delimiter unless the buffer is then full. */
  lemma FittingPut(cap: nat, data: Bytes, item: Item)
    requires Fits(cap, data, item)
    ensures var all := data + Token(item);
      |all| < cap && Put(cap, data, item) == if |all| + 1 < cap then all + [SPACE] else all
  {
    match item {
      case Text(val) =>
        TakenFits(cap, |data| + 1, val, |val|);
        assert val[..|val|] == val;
        assert data + [QUOTE] + Escape(val) + [QUOTE] == data + Token(item);
      case Whole(v) =>
    }
  }

  /** The room check leaves a place for the closing quote and the terminator. */
  lemma {:induction false} TakenFits(cap: nat, at: nat, val: Bytes, n: nat)
    requires n <= |val| && (at + 3 < cap || (cap == 3 && at == 1))
    ensures at + |Escape(val[..Taken(cap, at, val, n)])| + 2 <= cap
  {
    if n > 0 {
      TakenFits(cap, at, val, n - 1);
      assert val[..n][..n - 1] == val[..n - 1];
    }
  }

  /** Everything but the last delimiter is there. */
  lemma {:induction false} PutAllStream(cap: nat, items: seq<Item>)
    requires AllFit(cap, items)
    ensures var data := PutAll(cap, items);
      data == Stream(items) || (items != [] && |data| + 1 >= cap && data + [SPACE] == Stream(items))
  {
    if items != [] {
      var before := PutAll(cap, items[..|items| - 1]);
      PutAllStream(cap, items[..|items| - 1]);
      FittingPut(cap, before, items[|items| - 1]);
      StreamEnd(items);
      assert |before| + 1 < cap;
    }
  }

  /** No token looks like a delimiter at its start. */
  lemma TokenStarts(item: Item)
    ensures Token(item) != [] && !Delimiter(Token(item)[0])
  {
    match item {
      case Text(_) =>
      case Whole(v) => DecimalDigits(if v < 0 then -v else v);
    }
  }

  /** What can follow a token: nothing, or a delimiter and then nothing or another token. */
  ghost predicate Follows(rest: Bytes) {
    rest == [] || (rest[0] == SPACE && (|rest| == 1 || !Delimiter(rest[1])))
  }

  lemma SkippedAfter(rest: Bytes)
    requires Follows(rest)
    ensures Skipped(rest) == if rest == [] then 0 else 1
  {
    if |rest| > 1 {
      assert rest[1..][0] == rest[1];
    }
  }

  lemma GetToken(range: Range, item: Item, rest: Bytes)
    requires item.Whole? ==> In(range, item.v)
    requires Follows(rest)
    ensures Get(range, Token(item) + rest, item) == (Some(item), |Token(item)| + if rest == [] then 0 else 1)
  {
    match item {
      case Text(val) => GetTextToken(val, rest);
      case Whole(v) => GetWholeToken(range, v, rest);
    }
    hide GetString, GetNumber;
  }

  lemma GetTextToken(val: Bytes, rest: Bytes)
    requires Follows(rest)
    ensures GetString(Token(Text(val)) + rest) == (val, |Token(Text(val))| + if rest == [] then 0 else 1)
  {
    hide Unquote, Escape, Skipped, Bare, Follows;
    var t, n := Token(Text(val)) + rest, |Token(Text(val))|;
    SkippedAfter(rest);
    assert t[n..] == rest;
    UnquoteEscape(val, rest);
    assert t[1..] == Escape(val) + [QUOTE] + rest;
  }

  lemma GetWholeToken(range: Range, v: int, rest: Bytes)
    requires In(range, v) && Follows(rest)
    ensures GetNumber(range, Number(v) + rest) == (Some(v), |Number(v)| + if rest == [] then 0 else 1)
  {
    TokenStarts(Whole(v));
    hide FromChars, Number, Skipped, Bare;
    var t, n := Number(v) + rest, |Number(v)|;
    SkippedAfter(rest);
    assert t[n..] == rest;
    FromCharsNumber(range, v, rest);
  }

  /** Every item found. */
  function Found(items: seq<Item>): seq<Option<Item>> {
    if items == [] then [] else [Some(items[0])] + Found(items[1..])
  }

  /** The stream, or the stream without the delimiter at its very end. */
  ghost predicate StreamOf(data: Bytes, items: seq<Item>) {
    data == Stream(items) || (items != [] && data + [SPACE] == Stream(items))
  }

  /** Two ways to be token, delimiter, tail: in full, or without the last delimiter. */
  lemma CutFull(token: Bytes, tail: Bytes, data: Bytes)
    requires data == token + [SPACE] + tail
    ensures data[..|token|] == token && |data| > |token| && data[|token|] == SPACE && data[|token| + 1..] == tail
  {}

  lemma CutShort(token: Bytes, tail: Bytes, data: Bytes)
    requires data + [SPACE] == token + [SPACE] + tail
    ensures |token| <= |data| && data[..|token|] == token
    ensures if tail == [] then data == token
            else |data| > |token| && data[|token|] == SPACE && data[|token| + 1..] + [SPACE] == tail
  {
    var full := token + [SPACE] + tail;
    assert data == full[..|data|];
    assert full[..|token|] == token;
    if tail != [] {
      assert (data + [SPACE])[|token| + 1..] == tail;
    }
  }

  lemma StreamSplits(items: seq<Item>, data: Bytes)
    requires items != [] && StreamOf(data, items)
    ensures var n := |Token(items[0])|;
      && n <= |data| && data[..n] == Token(items[0])
      && (|data| == n ==> items[1..] == [])
      && (|data| > n ==> data[n] == SPACE && StreamOf(data[n + 1..], items[1..]))
  {
    var tail := Stream(items[1..]);
    if data == Stream(items) {
      CutFull(Token(items[0]), tail, data);
    } else {
      CutShort(Token(items[0]), tail, data);
    }
    assert items[1..] != [] ==> |tail| >= 1;
    hide Token;
  }

  lemma StreamStarts(items: seq<Item>, data: Bytes)
    requires StreamOf(data, items)
    ensures data == [] || !Delimiter(data[0])
  {
    if items != [] {
      StreamSplits(items, data);
      TokenStarts(items[0]);
      assert data[0] == data[..|Token(items[0])|][0];
    }
  }

  lemma OneThenRest(range: Range, items: seq<Item>, data: Bytes, used: nat)
    requires items != [] && used <= |data|
    requires Get(range, data, items[0]) == (Some(items[0]), used)
    requires GetAll(range, data[used..], items[1..]) == (Found(items[1..]), |data| - used)
    ensures GetAll(range, data, items) == (Found(items), |data|)
  {
    hide Get;
  }

  /** The first extraction finds the first item and leaves a stream of the others. */
  lemma ReadsFirst(range: Range, items: seq<Item>, data: Bytes) returns (used: nat)
    requires items != [] && AllIn(range, items) && StreamOf(data, items)
    ensures used <= |data| && Get(range, data, items[0]) == (Some(items[0]), used) && StreamOf(data[used..], items[1..])
  {
    StreamSplits(items, data);
    var n := |Token(items[0])|;
    var rest := data[n..];
    assert data == Token(items[0]) + rest;
    if rest == [] {
      used := n;
      assert StreamOf(data[used..], items[1..]);
    } else {
      used := n + 1;
      assert rest[1..] == data[used..];
      StreamStarts(items[1..], rest[1..]);
      assert |rest| > 1 ==> rest[1..][0] == rest[1];
    }
    hide Token, Get, StreamOf, Stream;
    GetToken(range, items[0], rest);
  }

  lemma NothingToRead(range: Range, data: Bytes)
    requires StreamOf(data, [])
    ensures GetAll(range, data, []) == (Found([]), |data|)
  {}

  lemma {:induction false} StreamReads(range: Range, items: seq<Item>, data: Bytes)
    requires AllIn(range, items) && StreamOf(data, items)
    ensures GetAll(range, data, items) == (Found(items), |data|)
    decreases |items|
  {
    hide GetAll, Get, Found, StreamOf;
    if items == [] {
      NothingToRead(range, data);
    } else {
      var used := ReadsFirst(range, items, data);
      StreamReads(range, items[1..], data[used..]);
      OneThenRest(range, items, data, used);
    }
  }

  /** ROUND TRIP: any list of strings and integers that fits is read back equal, in order, and used up. */
  lemma CodecRoundTrip(cap: nat, range: Range, items: seq<Item>)
    requires AllFit(cap, items) && AllIn(range, items)
    ensures GetAll(range, PutAll(cap, items), items) == (Found(items), |PutAll(cap, items)|)
  {
    PutAllStream(cap, items);
    StreamReads(range, items, PutAll(cap, items));
  }

  // ---- Where the bytes go ---------------------------------------------------------------------------------

  /** `written` after the string loop of `<<`, whose check is against N - 3. */
  function AfterLoop(n: nat, at: nat, val: Bytes): (w: nat)
    ensures w >= at
    decreases |val|
  {
    if val == [] || at >= Minus(n, 3) then at
    else AfterLoop(n, at + (if Special(val[0]) then 2 else 1), val[1..])
  }

  /** The highest index that `<<` of a string stores to, and whether it stores at all. */
  function HighestStore(n: nat, written: nat, val: Bytes): Option<nat> {
    if written >= Minus(n, 4) then None
    else
      var w := AfterLoop(n, written + 1, val) + 1;
      Some(if w < Minus(n, 1) then w + 1 else w)
  }

  lemma {:induction false} AfterLoopBound(n: nat, at: nat, val: Bytes)
    requires 4 <= n && at + 2 <= n
    ensures AfterLoop(n, at, val) + 2 <= n
    decreases |val|
  {
    if val != [] && at < n - 3 {
      AfterLoopBound(n, at + (if Special(val[0]) then 2 else 1), val[1..]);
    }
  }

  /** THE EXACT CONDITION for `<<` of a string to stay inside the buffer, for every string: four bytes or
      more, or three with nothing written. Below that the room checks N - 4 and N - 3 wrap around. */
  lemma StringStaysInsideIff(n: nat, written: nat, val: Bytes)
    requires 1 <= n < SIZE_MAX && written <= n
    ensures (HighestStore(n, written, val).Some? ==> HighestStore(n, written, val).value < n) <==> Inside(n, written)
  {
    if n >= 4 && written < n - 4 {
      AfterLoopBound(n, written + 1, val);
    }
  }
}
