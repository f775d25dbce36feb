/** The buffer itself: bytes, `written` and `readOffset`, changed in place by byte-by-byte loops
    (core/Buffer.h:320-341, 365-421, 443-492). Every operation is proved equal to its function in
    TokenBuffer.dfy, and never to index outside the bytes. */
module TokenBufferOps {
  import opened TokenBuffer

  class TBuffer {
    const buf: array<byte>
    var written: nat
    var readOffset: nat

    ghost predicate Valid()
      reads this, buf
    {
      1 <= buf.Length && readOffset <= written <= buf.Length
    }

    /** The written prefix. */
    ghost function Data(): Bytes
      reads this, buf
      requires Valid()
    {
      buf[..written]
    }

    /** What is still to be read. */
    ghost function Remaining(): Bytes
      reads this, buf
      requires Valid()
    {
      buf[readOffset..written]
    }

    constructor (capacity: nat)
      requires 1 <= capacity
      ensures Valid() && fresh(buf) && buf.Length == capacity && Data() == [] && readOffset == 0
    {
      buf := new byte[capacity](_ => 0);
      written, readOffset := 0, 0;
    }

    /** Every append stores one byte and moves `written` on. */
    method Append(b: byte)
      requires Valid() && written < buf.Length
      modifies this`written, buf
      ensures Valid() && Data() == old(Data()) + [b]
    {
      buf[written] := b;
      written := written + 1;
    }

    /** The trailing delimiter, if there is room, and the terminator. */
    method Close()
      requires Valid() && written < buf.Length
      modifies this`written, buf
      ensures Valid() && written < buf.Length && Data() == Delimited(buf.Length, old(Data())) && buf[written] == 0
    {
      if written < buf.Length - 1 {
        Append(SPACE);
      }
      ghost var data := Data();
      buf[written] := 0;
      assert Data() == data;
    }

    /** Asks for a buffer in which no string at all is written past the end. */
    method PutText(val: Bytes)
      requires Valid() && Inside(buf.Length, written)
      modifies this`written, buf
      ensures Valid() && Data() == PutString(buf.Length, old(Data()), val)
    {
      if written >= Minus(buf.Length, 4) {
        return;
      }
      Append(QUOTE);
      PutEscaped(val);
      Append(QUOTE);
      Close();
    }

    /** The characters of the string, escaped, as long as there is room for one more pair. */
    method PutEscaped(val: Bytes)
      requires Valid() && (written + 3 < buf.Length || (buf.Length == 3 && written == 1))
      modifies this`written, buf
      ensures Valid() && written <= buf.Length - 2
      ensures Data() == old(Data()) + Escape(val[..Taken(buf.Length, old(written), val, |val|)])
    {
      hide Escape, EscapeOne, Taken;
      ghost var start, at := Data(), written;
      NothingTaken(buf.Length, at, val);
      var i := 0;
      while i < |val| && written < Minus(buf.Length, 3)
        invariant 0 <= i <= |val| && Valid() && Taken(buf.Length, at, val, i) == i
        invariant Data() == start + Escape(val[..i]) && written <= buf.Length - 2
      {
        OneTaken(buf.Length, at, val, i);
        PutOne(val[i]);
        i := i + 1;
      }
      StoppedAt(buf.Length, at, val, i, |val|);
    }

    method PutOne(b: byte)
      requires Valid() && written + 1 < buf.Length
      modifies this`written, buf
      ensures Valid() && Data() == old(Data()) + EscapeOne(b) && old(written) < written <= old(written) + 2
    {
      if b == QUOTE || b == BACKSLASH {
        Append(BACKSLASH);
      }
      Append(b);
    }

    method PutWhole(v: int)
      requires Valid()
      modifies this`written, buf
      ensures Valid() && Data() == PutNumber(buf.Length, old(Data()), v)
    {
      if written >= buf.Length - 1 {
        return;
      }
      var digits := Number(v);
      if |digits| > buf.Length - 1 - written {
        return;
      }
      ghost var start := Data();
      for i := 0 to |digits|
        invariant Valid() && Data() == start + digits[..i]
      {
        Append(digits[i]);
      }
      Close();
    }

    /** Skips the trailing delimiters, so that the next extraction starts on a token. */
    method SkipDelimiters()
      requires Valid()
      modifies this`readOffset
      ensures Valid() && readOffset == old(readOffset) + Skipped(old(Remaining()))
    {
      while readOffset < written && (buf[readOffset] == SPACE || buf[readOffset] == COMMA)
        invariant Valid() && readOffset >= old(readOffset)
        invariant Skipped(old(Remaining())) == readOffset - old(readOffset) + Skipped(Remaining())
      {
        assert Remaining()[1..] == buf[readOffset + 1..written];
        readOffset := readOffset + 1;
      }
    }

    method GetText() returns (val: Bytes)
      requires Valid()
      modifies this`readOffset
      ensures Valid() && (val, readOffset - old(readOffset)) == GetString(old(Remaining()))
    {
      if readOffset >= written {
        return [];
      }
      ghost var t := Remaining();
      var current: nat;
      val, current := ScanToken();
      hide TokenAt;
      assert t[current - readOffset..] == buf[current..written];
      readOffset := current;
      SkipDelimiters();
    }

    method ScanToken() returns (val: Bytes, current: nat)
      requires Valid() && readOffset < written
      ensures readOffset <= current <= written && (val, current - readOffset) == TokenAt(Remaining())
    {
      hide Unquote, Bare;
      var quote := buf[readOffset];
      if quote == QUOTE || quote == APOSTROPHE {
        val, current := ScanQuoted(readOffset + 1, quote);
        assert Remaining()[1..] == Data()[readOffset + 1..];
      } else {
        current := ScanBare(readOffset);
        val := buf[readOffset..current];
        SlicePrefix(buf[..], readOffset, current, written);
      }
    }

    /** The inside of a quoted token from `from` on, and the place after it. */
    method ScanQuoted(from: nat, quote: byte) returns (val: Bytes, current: nat)
      requires Valid() && from <= written
      ensures from <= current <= written
      ensures val == Unquote(Data()[from..], quote).0 && current - from == Unquote(Data()[from..], quote).1
    {
      ghost var data := Data();
      hide Unquote;
      val, current := [], from;
      while current < written
        invariant from <= current <= written
        invariant Unquote(data[from..], quote).0 == val + Unquote(data[current..], quote).0
        invariant Unquote(data[from..], quote).1 == current - from + Unquote(data[current..], quote).1
      {
        UnquoteOn(data, current, quote);
        assert buf[current] == data[current];
        if buf[current] == BACKSLASH {
          current := current + 1;
          if current < written {
            assert buf[current] == data[current];
            Associate(val, data[current], Unquote(data[current + 1..], quote).0);
            val := val + [buf[current]];
            current := current + 1;
          } else {
            UnquoteEnds(data, current, quote);
          }
        } else if buf[current] == quote {
          return val, current + 1;
        } else {
          Associate(val, data[current], Unquote(data[current + 1..], quote).0);
          val := val + [buf[current]];
          current := current + 1;
        }
      }
      UnquoteEnds(data, current, quote);
    }

    /** The end of the unquoted token at `from`. */
    method ScanBare(from: nat) returns (current: nat)
      requires Valid() && from <= written
      ensures from <= current <= written && current - from == Bare(buf[from..written])
    {
      current := from;
      while current < written && buf[current] != SPACE && buf[current] != COMMA
        invariant from <= current <= written
        invariant Bare(buf[from..written]) == current - from + Bare(buf[current..written])
      {
        assert buf[current..written][1..] == buf[current + 1..written];
        current := current + 1;
      }
    }

    /** An extraction that finds no number leaves the variable as it was. */
    method GetWhole(range: Range) returns (v: Option<int>)
      requires Valid()
      modifies this`readOffset
      ensures Valid() && (v, readOffset - old(readOffset)) == GetNumber(range, old(Remaining()))
    {
      if readOffset >= written {
        return None;
      }
      ghost var t := Remaining();
      var found := FromChars(range, buf[readOffset..written]);
      if found.Some? {
        v := Some(found.value.0);
        readOffset := readOffset + found.value.1;
      } else {
        v := None;
        readOffset := ScanBare(readOffset);
      }
      assert t[readOffset - old(readOffset)..] == Remaining();
      SkipDelimiters();
    }
  }

  lemma UnquoteOn(data: Bytes, i: nat, quote: byte)
    requires i < |data|
    ensures Unquote(data[i..], quote) ==
      if data[i] == BACKSLASH then
        if i + 1 == |data| then ([], 1)
        else ([data[i + 1]] + Unquote(data[i + 2..], quote).0, Unquote(data[i + 2..], quote).1 + 2)
      else if data[i] == quote then ([], 1)
      else ([data[i]] + Unquote(data[i + 1..], quote).0, Unquote(data[i + 1..], quote).1 + 1)
  {
    var t := data[i..];
    assert t[1..] == data[i + 1..];
    if i + 2 <= |data| { assert t[2..] == data[i + 2..]; }
  }

  lemma Associate(a: Bytes, b: byte, c: Bytes)
    ensures a + ([b] + c) == (a + [b]) + c
  {}

  lemma UnquoteEnds(data: Bytes, i: nat, quote: byte)
    requires i == |data|
    ensures Unquote(data[i..], quote) == ([], 0)
  {}

  lemma SlicePrefix(data: Bytes, i: nat, k: nat, end: nat)
    requires i <= k <= end <= |data|
    ensures data[i..end][..k - i] == data[i..k]
  {}

  lemma NothingTaken(cap: nat, at: nat, val: Bytes)
    ensures Taken(cap, at, val, 0) == 0 && Escape(val[..0]) == []
  {}

  lemma OneTaken(cap: nat, at: nat, val: Bytes, i: nat)
    requires i < |val| && Taken(cap, at, val, i) == i && at + |Escape(val[..i])| < Minus(cap, 3)
    ensures Taken(cap, at, val, i + 1) == i + 1 && Escape(val[..i + 1]) == Escape(val[..i]) + EscapeOne(val[i])
  {
    assert val[..i + 1][..i] == val[..i];
  }

  /** Once the room check has stopped the loop, it takes no more. */
  lemma {:induction false} StoppedAt(cap: nat, at: nat, val: Bytes, i: nat, n: nat)
    requires i <= n <= |val| && Taken(cap, at, val, i) == i
    requires i == n || at + |Escape(val[..i])| >= Minus(cap, 3)
    ensures Taken(cap, at, val, n) == i
    decreases n
  {
    if i < n {
      if i < n - 1 || i == n - 1 { StoppedAt(cap, at, val, i, n - 1); }
    }
  }
}
