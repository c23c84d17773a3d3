// lib/string.c: memmove, memcpy, memcmp and strstr.

module Bytes {
  import opened Machine

  // ---- memmove, memcpy ----

  /** What a move of count bytes from src to dest leaves: the old source bytes at dest, all else untouched. */
  function Moved(m: seq<Byte>, dest: nat, src: nat, count: nat): (r: seq<Byte>)
    requires dest + count <= |m| && src + count <= |m|
    ensures |r| == |m|
    ensures forall k :: 0 <= k < |m| ==> r[k] == if dest <= k < dest + count then m[src + (k - dest)] else m[k]
  {
    m[..dest] + m[src..src + count] + m[dest + count..]
  }

  /** memmove: the direction of the copy makes it right for every overlap. */
  method Memmove(m: array<Byte>, dest: nat, src: nat, count: nat)
    requires dest + count <= m.Length && src + count <= m.Length
    modifies m
    ensures m[..] == Moved(old(m[..]), dest, src, count)
  {
    if dest <= src {
      var i := 0;
      while i < count
        invariant 0 <= i <= count
        invariant forall k :: 0 <= k < m.Length ==> m[k] == if dest <= k < dest + i then old(m[src + (k - dest)]) else old(m[k])
      {
        m[dest + i] := m[src + i];
        i := i + 1;
      }
    } else {
      var i := count;
      while i > 0
        invariant 0 <= i <= count
        invariant forall k :: 0 <= k < m.Length ==> m[k] == if dest + i <= k < dest + count then old(m[src + (k - dest)]) else old(m[k])
      {
        i := i - 1;
        m[dest + i] := m[src + i];
      }
    }
  }

  /** The byte memcpy leaves at k: with dest inside the source, the copy reads what it has written. */
  function Copied(m: seq<Byte>, dest: nat, src: nat, count: nat, k: nat): Byte
    requires dest + count <= |m| && src + count <= |m| && k < |m|
    decreases k
  {
    if !(dest <= k < dest + count) then m[k]
    else if src < dest then Copied(m, dest, src, count, src + (k - dest))
    else m[src + (k - dest)]
  }

  /** memcpy always copies upwards. */
  method Memcpy(m: array<Byte>, dest: nat, src: nat, count: nat)
    requires dest + count <= m.Length && src + count <= m.Length
    modifies m
    ensures forall k :: 0 <= k < m.Length ==> m[k] == Copied(old(m[..]), dest, src, count, k)
  {
    var i := 0;
    while i < count
      invariant 0 <= i <= count
      invariant forall k :: 0 <= k < dest + i ==> m[k] == Copied(old(m[..]), dest, src, count, k)
      invariant forall k :: dest + i <= k < m.Length ==> m[k] == old(m[k])
    {
      m[dest + i] := m[src + i];
      i := i + 1;
    }
  }

  /** memcpy agrees with memmove when the destination does not start inside the source. */
  lemma CopyIsMove(m: seq<Byte>, dest: nat, src: nat, count: nat, k: nat)
    requires dest + count <= |m| && src + count <= |m| && k < |m|
    requires dest <= src || src + count <= dest
    ensures Copied(m, dest, src, count, k) == Moved(m, dest, src, count)[k]
  {
  }

  /** When it does, memcpy leaves the byte of src where memmove leaves that of dest. */
  lemma CopyIsNotMove(m: seq<Byte>, dest: nat, src: nat, count: nat)
    requires src < dest < src + count && dest + count <= |m|
    ensures var k := dest + (dest - src);
      Copied(m, dest, src, count, k) == m[src] && Moved(m, dest, src, count)[k] == m[dest]
  {
    assert Copied(m, dest, src, count, src) == m[src];
    assert Copied(m, dest, src, count, dest) == m[src];
  }

  // ---- memcmp ----

  predicate FirstDifference(a: seq<Byte>, b: seq<Byte>, i: nat)
    requires |a| == |b|
  {
    i < |a| && a[i] != b[i] && forall k :: 0 <= k < i ==> a[k] == b[k]
  }

  /** An int stored in a signed char. */
  function SignedChar(x: int): int {
    var low := x % 0x100;
    if low >= 0x80 then low - 0x100 else low
  }

  function Sign(x: int): int {
    if x > 0 then 1 else if x < 0 then -1 else 0
  }

  /** memcmp: zero exactly on equal memory; at the first difference the sign of the result is right exactly
      when the difference of the two bytes fits a signed char. */
  method Memcmp(cs: seq<Byte>, ct: seq<Byte>) returns (res: int)
    requires |cs| == |ct|
    ensures res == 0 <==> cs == ct
    ensures forall i: nat :: FirstDifference(cs, ct, i) ==>
      (Sign(res) == Sign(cs[i] as int - ct[i] as int) <==> -0x80 <= cs[i] as int - ct[i] as int < 0x80)
  {
    res := 0;
    for i := 0 to |cs|
      invariant res == 0 && forall k :: 0 <= k < i ==> cs[k] == ct[k]
    {
      res := SignedChar(cs[i] as int - ct[i] as int);
      if res != 0 {
        return;
      }
    }
  }

  /** Zero bytes compare greater than 0xff ones. */
  lemma OrderCanBeWrong()
    ensures SignedChar(0x00 - 0xff) > 0 && FirstDifference([0x00], [0xff], 0)
  {
  }

  // ---- strstr ----

  predicate Occurs(s1: seq<Byte>, s2: seq<Byte>, k: nat) {
    k + |s2| <= |s1| && s1[k..k + |s2|] == s2
  }

  /** strstr: the first place where s2 occurs in s1. */
  method Strstr(s1: seq<Byte>, s2: seq<Byte>) returns (r: Option<nat>)
    ensures r.None? <==> forall k: nat :: !Occurs(s1, s2, k)
    ensures r.Some? ==> Occurs(s1, s2, r.value) && forall k: nat :: k < r.value ==> !Occurs(s1, s2, k)
  {
    var l2 := |s2|;
    if l2 == 0 {
      assert s1[0..0] == s2;
      assert Occurs(s1, s2, 0);
      return Some(0);
    }
    var l1, at := |s1|, 0;
    while l1 >= l2
      invariant at + l1 == |s1| && at >= 0
      invariant forall k: nat :: k < at ==> !Occurs(s1, s2, k)
    {
      l1 := l1 - 1;
      var c := Memcmp(s1[at..at + l2], s2);
      if c == 0 {
        assert Occurs(s1, s2, at);
        return Some(at);
      }
      at := at + 1;
    }
    return None;
  }
}
