/**
 UTF-8 byte offsets into text. A `string` is a sequence of Unicode scalar
 values, as in the source; a cursor is a byte offset, and only offsets between
 two characters are boundaries.
 */
module Utf8Text {
  function Utf8Len(c: char): (n: nat)
    ensures 1 <= n <= 4
  {
    if c as int < 0x80 then 1
    else if c as int < 0x800 then 2
    else if c as int < 0x1_0000 then 3
    else 4
  }

  /** Byte offset of the boundary before character `i`. */
  function Offset(s: string, i: nat): (b: nat)
    requires i <= |s|
    ensures i <= b
  {
    if i == 0 then 0 else Offset(s, i - 1) + Utf8Len(s[i - 1])
  }

  function ByteLen(s: string): nat {
    Offset(s, |s|)
  }

  predicate IsBoundary(s: string, b: nat) {
    exists i :: 0 <= i <= |s| && Offset(s, i) == b
  }

  lemma {:induction false} OffsetIncreases(s: string, i: nat, j: nat)
    requires i < j <= |s|
    ensures Offset(s, i) < Offset(s, j)
  {
    if i + 1 < j {
      OffsetIncreases(s, i, j - 1);
    }
  }

  /** Offsets look only at the text before them. */
  lemma {:induction false} OffsetOfPrefix(s: string, t: string, i: nat)
    requires i <= |s| && i <= |t| && s[..i] == t[..i]
    ensures Offset(s, i) == Offset(t, i)
  {
    if i != 0 {
      assert s[..i][..i - 1] == s[..i - 1] && t[..i][..i - 1] == t[..i - 1];
      assert s[..i][i - 1] == t[..i][i - 1];
      OffsetOfPrefix(s, t, i - 1);
    }
  }

  /** How many characters start before byte `b`. */
  function CharsBefore(s: string, b: nat): (n: nat)
    ensures n <= |s|
    ensures forall i :: 0 <= i < |s| ==> (i < n <==> Offset(s, i) < b)
  {
    CharsBeforeUpTo(s, b, |s|)
  }

  function CharsBeforeUpTo(s: string, b: nat, m: nat): (n: nat)
    requires m <= |s|
    ensures n <= m
    ensures forall i :: 0 <= i < m ==> (i < n <==> Offset(s, i) < b)
  {
    if m == 0 then 0
    else if Offset(s, m - 1) < b then
      assert forall i :: 0 <= i < m - 1 ==> Offset(s, i) < b by {
        forall i | 0 <= i < m - 1
          ensures Offset(s, i) < b
        {
          OffsetIncreases(s, i, m - 1);
        }
      }
      m
    else CharsBeforeUpTo(s, b, m - 1)
  }

  /** At a boundary, the count of characters before it names it. */
  lemma CharsBeforeBoundary(s: string, i: nat)
    requires i <= |s|
    ensures CharsBefore(s, Offset(s, i)) == i
  {
    var n := CharsBefore(s, Offset(s, i));
    if n < i {
      OffsetIncreases(s, n, i);
    }
  }

  lemma CharsBeforeMonotone(s: string, a: nat, b: nat)
    requires a <= b
    ensures CharsBefore(s, a) <= CharsBefore(s, b)
  {
    var n := CharsBefore(s, b);
    assert n == |s| || b <= Offset(s, n);
  }

  lemma BoundaryIndex(s: string, b: nat)
    requires IsBoundary(s, b)
    ensures Offset(s, CharsBefore(s, b)) == b
  {
    var i :| 0 <= i <= |s| && Offset(s, i) == b;
    CharsBeforeBoundary(s, i);
  }

  /** `prev_char_boundary`: the nearest boundary before `pos`. */
  method PrevCharBoundary(s: string, pos: nat) returns (p: nat)
    requires pos <= ByteLen(s)
    ensures IsBoundary(s, p)
    ensures pos == 0 ==> p == 0
    ensures 0 < pos ==> p < pos && forall q :: p < q < pos ==> !IsBoundary(s, q)
  {
    p := if pos == 0 then 0 else pos - 1;
    assert Offset(s, 0) == 0;
    while 0 < p && !IsBoundary(s, p)
      invariant 0 < pos ==> p < pos && forall q :: p < q < pos ==> !IsBoundary(s, q)
      invariant pos == 0 ==> p == 0
    {
      p := p - 1;
    }
  }

  /** `next_char_boundary`: the nearest boundary after `pos`. */
  method NextCharBoundary(s: string, pos: nat) returns (p: nat)
    requires pos < ByteLen(s)
    ensures IsBoundary(s, p) && pos < p
    ensures forall q :: pos < q < p ==> !IsBoundary(s, q)
  {
    p := pos + 1;
    while p < ByteLen(s) && !IsBoundary(s, p)
      invariant pos < p <= ByteLen(s)
      invariant forall q :: pos < q < p ==> !IsBoundary(s, q)
      decreases ByteLen(s) - p
    {
      p := p + 1;
    }
  }

  /** From a boundary the neighbours are the offsets one character away. */
  lemma NeighbourBoundaries(s: string, i: nat, q: nat)
    requires i <= |s|
    ensures 0 < i && IsBoundary(s, q) && q < Offset(s, i) ==> q <= Offset(s, i - 1)
    ensures i < |s| && IsBoundary(s, q) && Offset(s, i) < q ==> Offset(s, i + 1) <= q
  {
    if IsBoundary(s, q) {
      var j :| 0 <= j <= |s| && Offset(s, j) == q;
      if i < j { OffsetIncreases(s, i, j); }
      if j < i { OffsetIncreases(s, j, i); }
      if i + 1 < j { OffsetIncreases(s, i + 1, j); }
      if j < i - 1 { OffsetIncreases(s, j, i - 1); }
    }
  }

  // ---- The bytes themselves -------------------------------------------------

  /** The encoding of section 3 of RFC 3629. */
  function Encoded(c: char): (r: seq<nat>)
    ensures 0 < |r|
  {
    var n := c as int;
    if n < 0x80 then [n]
    else if n < 0x800 then [0xC0 + n / 0x40, 0x80 + n % 0x40]
    else if n < 0x1_0000 then [0xE0 + n / 0x1000, 0x80 + n / 0x40 % 0x40, 0x80 + n % 0x40]
    else [0xF0 + n / 0x4_0000, 0x80 + n / 0x1000 % 0x40, 0x80 + n / 0x40 % 0x40, 0x80 + n % 0x40]
  }

  predicate Continues(b: nat) {
    0x80 <= b < 0xC0
  }

  /** `Utf8Len` counts the bytes, of which all but the first continue a character. */
  lemma EncodedLength(c: char)
    ensures |Encoded(c)| == Utf8Len(c)
    ensures forall k :: 0 <= k < |Encoded(c)| ==> (Continues(Encoded(c)[k]) <==> 0 < k)
  {
  }

  function Bytes(s: string): seq<nat> {
    if s == [] then [] else Bytes(s[..|s| - 1]) + Encoded(s[|s| - 1])
  }

  lemma {:induction false} BytesOfPrefix(s: string, i: nat)
    requires i <= |s|
    ensures |Bytes(s)| == ByteLen(s) && Offset(s, i) <= |Bytes(s)| && Bytes(s)[..Offset(s, i)] == Bytes(s[..i])
  {
    if s != [] {
      var init := s[..|s| - 1];
      EncodedLength(s[|s| - 1]);
      OffsetOfPrefix(s, init, |init|);
      BytesOfPrefix(init, |init|);
      if i == |s| {
        assert s[..i] == s;
      } else {
        BytesOfPrefix(init, i);
        OffsetOfPrefix(s, init, i);
        assert init[..i] == s[..i];
      }
    }
  }

  lemma ByteOfCharacter(s: string, i: nat, k: nat)
    requires i < |s| && k < Utf8Len(s[i])
    ensures |Encoded(s[i])| == Utf8Len(s[i])
    ensures Offset(s, i) + k < |Bytes(s)| && Bytes(s)[Offset(s, i) + k] == Encoded(s[i])[k]
  {
    hide Encoded;
    BytesOfPrefix(s, i);
    BytesOfPrefix(s, i + 1);
    EncodedLength(s[i]);
    assert s[..i + 1][..i] == s[..i];
    BytesOfPrefix(s[..i + 1], i);
    OffsetOfPrefix(s, s[..i + 1], i);
    assert Bytes(s[..i + 1]) == Bytes(s[..i]) + Encoded(s[i]);
    assert Bytes(s)[Offset(s, i) + k] == Bytes(s)[..Offset(s, i + 1)][Offset(s, i) + k];
  }

  /** A byte offset is a boundary exactly when it is the end of the text or the
      byte there does not continue a character. */
  lemma BoundaryIffNotContinuing(s: string, b: nat)
    ensures |Bytes(s)| == ByteLen(s)
    ensures IsBoundary(s, b) <==> b == |Bytes(s)| || (b < |Bytes(s)| && !Continues(Bytes(s)[b]))
  {
    hide Encoded, Bytes, Continues;
    BytesOfPrefix(s, |s|);
    if b < |Bytes(s)| {
      var i, k := CharacterAt(s, b);
      ByteOfCharacter(s, i, k);
      EncodedLength(s[i]);
      if IsBoundary(s, b) {
        var j :| 0 <= j <= |s| && Offset(s, j) == b;
        OnlyAtItsStart(s, i, k, j);
      }
    } else if IsBoundary(s, b) {
      var j :| 0 <= j <= |s| && Offset(s, j) == b;
      BytesOfPrefix(s, j);
    }
  }

  lemma OnlyAtItsStart(s: string, i: nat, k: nat, j: nat)
    requires i < |s| && k < Utf8Len(s[i]) && j <= |s| && Offset(s, j) == Offset(s, i) + k
    ensures k == 0
  {
    if j < i {
      OffsetIncreases(s, j, i);
    } else if i + 1 < j {
      OffsetIncreases(s, i + 1, j);
    }
  }

  /** The character that byte `b` belongs to, and which of its bytes it is. */
  lemma {:induction false} CharacterAt(s: string, b: nat) returns (i: nat, k: nat)
    requires b < ByteLen(s)
    ensures i < |s| && k < Utf8Len(s[i]) && b == Offset(s, i) + k
  {
    i := |s| - 1;
    while b < Offset(s, i)
      invariant i < |s| && b < Offset(s, i) + Utf8Len(s[i])
    {
      i := i - 1;
    }
    k := b - Offset(s, i);
  }
}
