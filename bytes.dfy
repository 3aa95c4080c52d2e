/** Byte-level vocabulary shared by every MODBUS copy: bytes as Python sees them
    (integers 0..255), optional results, and the integer arithmetic that the
    source writes with `>>`, `&` and `|`. */
module Bytes {

  /** One element of a Python `bytes`/`bytearray`. */
  type byte = x: int | 0 <= x < 256

  datatype Option<+T> = None | Some(value: T)

  /** What a call hands its caller: the value it returns, or the name of the
      exception it lets escape. */
  datatype Outcome<+T> = Returned(value: T) | Raised(error: string)

  /** Python's `(x >> 8) & 0xFF` for any integer x (Dafny's `/` and `%` by a
      positive divisor are floor division and a non-negative remainder, as in Python). */
  function HighByte(x: int): byte
  {
    (x / 256) % 256
  }

  /** Python's `x & 0xFF` for any integer x. */
  function LowByte(x: int): byte
  {
    x % 256
  }

  /** Python's `lo | (hi << 8)`: the bits of the two bytes do not overlap, so `|` is `+`. */
  function Word(lo: byte, hi: byte): (w: int)
    ensures 0 <= w < 0x1_0000
  {
    lo + hi * 256
  }

  /** Python's `(d0 << 8) | d1`: a big-endian unsigned 16-bit value. */
  function BigEndian16(d0: byte, d1: byte): (w: int)
    ensures 0 <= w < 0x1_0000
  {
    d0 * 256 + d1
  }

  /** Splitting a 16-bit value into its low and high byte and joining them again gives it back. */
  lemma WordSplit(x: int)
    requires 0 <= x < 0x1_0000
    ensures Word(LowByte(x), HighByte(x)) == x
    ensures BigEndian16(HighByte(x), LowByte(x)) == x
  {
  }

  /** For any integer, the two bytes `(x >> 8) & 0xFF` and `x & 0xFF` keep
      exactly the low 16 bits of x. */
  lemma SplitKeepsLow16(x: int)
    ensures BigEndian16(HighByte(x), LowByte(x)) == x % 0x1_0000
  {
    var q := x / 256;
    assert x == q * 256 + LowByte(x);
    assert q == (q / 256) * 256 + HighByte(x);
    assert x == (q / 256) * 0x1_0000 + BigEndian16(HighByte(x), LowByte(x));
  }

  /** Splitting a big-endian 16-bit value gives back its two bytes. */
  lemma JoinSplit(d0: byte, d1: byte)
    ensures HighByte(BigEndian16(d0, d1)) == d0
    ensures LowByte(BigEndian16(d0, d1)) == d1
  {
  }

  /** Two (low, high) byte pairs give the same word only if they are the same pair. */
  lemma WordInjective(lo1: byte, hi1: byte, lo2: byte, hi2: byte)
    requires Word(lo1, hi1) == Word(lo2, hi2)
    ensures lo1 == lo2 && hi1 == hi2
  {
  }

  /** Python's `x[:n]` when n may exceed the length: reading n bytes from a port
      returns at most n bytes. */
  function Prefix<T>(s: seq<T>, n: int): (r: seq<T>)
    ensures |r| == if n < 0 then 0 else if n < |s| then n else |s|
    ensures r <= s
  {
    if n <= 0 then [] else if n < |s| then s[..n] else s
  }

  /** Python's `substring in text`. */
  predicate Contains(text: string, sub: string)
  {
    |sub| <= |text| && (text[..|sub|] == sub || Contains(text[1..], sub))
  }

  /** `sub` occurs in `text` starting at index i. */
  predicate OccursAt(text: string, sub: string, i: int)
  {
    0 <= i <= |text| - |sub| && text[i..i + |sub|] == sub
  }

  /** Contains holds exactly when `sub` occurs at some index of `text`. */
  lemma {:induction false} ContainsAt(text: string, sub: string)
    decreases |text|
    ensures Contains(text, sub) <==> exists i :: OccursAt(text, sub, i)
  {
    if |sub| <= |text| {
      if text[..|sub|] == sub {
        assert OccursAt(text, sub, 0);
      } else {
        ContainsAt(text[1..], sub);
        if Contains(text[1..], sub) {
          var i :| OccursAt(text[1..], sub, i);
          assert text[i + 1..i + 1 + |sub|] == text[1..][i..i + |sub|];
          assert OccursAt(text, sub, i + 1);
        }
        if exists i :: OccursAt(text, sub, i) {
          var i :| OccursAt(text, sub, i);
          assert i != 0;
          assert text[1..][i - 1..i - 1 + |sub|] == text[i..i + |sub|];
          assert OccursAt(text[1..], sub, i - 1);
        }
      }
    } else {
      assert forall i :: !OccursAt(text, sub, i);
    }
  }

  /** `sub` does not occur at i when one of its characters differs there. */
  lemma NotOccursAt(text: string, sub: string, i: int, k: nat)
    requires 0 <= i <= |text| - |sub| ==> k < |sub| && text[i + k] != sub[k]
    ensures !OccursAt(text, sub, i)
  {
    if 0 <= i <= |text| - |sub| {
      assert text[i..i + |sub|][k] == text[i + k];
    }
  }

  /** Python's `str.upper()` restricted to ASCII letters. */
  function Upper(s: string): (r: string)
    ensures |r| == |s|
    ensures forall i :: 0 <= i < |s| ==> r[i] == UpperChar(s[i])
  {
    if s == [] then [] else [UpperChar(s[0])] + Upper(s[1..])
  }

  function UpperChar(c: char): char
  {
    if 'a' <= c <= 'z' then (c as int - 32) as char else c
  }

  /** Python's `sep.join(parts)`. */
  function Join(parts: seq<string>, sep: string): string
  {
    if parts == [] then ""
    else if |parts| == 1 then parts[0]
    else parts[0] + sep + Join(parts[1..], sep)
  }

  /** The k-th reply still queued, or no bytes when the queue is shorter. */
  function Nth<T>(inbox: seq<seq<T>>, k: nat): seq<T>
  {
    if k < |inbox| then inbox[k] else []
  }

  /** The queue once k replies have been consumed. */
  function Drop<T>(inbox: seq<seq<T>>, k: nat): seq<seq<T>>
  {
    if k <= |inbox| then inbox[k..] else []
  }

  /** Consuming j replies and then one more is consuming j + 1. */
  lemma DropNth<T>(inbox: seq<seq<T>>, j: nat)
    ensures Nth(Drop(inbox, j), 0) == Nth(inbox, j)
    ensures Drop(Drop(inbox, j), 1) == Drop(inbox, j + 1)
  {
    if j + 1 <= |inbox| {
      assert inbox[j..][1..] == inbox[j + 1..];
    }
  }

  /** The k-th reply after consuming j is the (j + k)-th. */
  lemma NthDrop<T>(inbox: seq<seq<T>>, j: nat, k: nat)
    ensures Nth(Drop(inbox, j), k) == Nth(inbox, j + k)
  {
  }

  /** Consuming j replies and then k more is consuming j + k. */
  lemma DropDrop<T>(inbox: seq<seq<T>>, j: nat, k: nat)
    ensures Drop(Drop(inbox, j), k) == Drop(inbox, j + k)
  {
    if j + k <= |inbox| {
      assert inbox[j..][k..] == inbox[j + k..];
    }
  }

  /** Concatenation regrouped, for logs that grow one exchange at a time. */
  lemma AppendAssociative<T>(a: seq<T>, b: seq<T>, c: seq<T>)
    ensures (a + b) + c == a + (b + c)
  {
  }
}
