/** CIOBufferPtr (base/src/IOBufferPtr.h and .cpp): a byte vector with a read cursor and a write cursor. */
module IOBuffer {
  import opened ByteOrder
  import opened Words

  /** The write guard, base.size() - wr_pos >= n, as the unsigned 64-bit arithmetic it is. */
  predicate RoomGuard(size: nat, wr: nat, n: nat) {
    (size - wr) % TWO_64 >= n
  }

  /** The read guard: the distance between the cursors as a uint32. */
  predicate DataGuard(wr: nat, rd: nat, n: nat) {
    (wr - rd) % TWO_32 >= n
  }

  /** The write guard means "there is room" for every length exactly when the write cursor is inside the vector;
      past the end the subtraction wraps and every write is let through. */
  lemma RoomGuardIff(size: nat, wr: nat)
    requires size <= INT_MAX && wr <= INT_MAX
    ensures (forall n: nat :: 0 < n <= TWO_32 ==> (RoomGuard(size, wr, n) <==> wr + n <= size)) <==> wr <= size
  {
    if wr > size {
      assert RoomGuard(size, wr, 1) && !(wr + 1 <= size);
    }
  }

  /** Likewise for the read guard and the order of the cursors. */
  lemma DataGuardIff(wr: nat, rd: nat)
    requires wr <= INT_MAX && rd <= INT_MAX
    ensures (forall n: nat :: 0 < n <= 8 ==> (DataGuard(wr, rd, n) <==> rd + n <= wr)) <==> rd <= wr
  {
    if rd > wr {
      assert DataGuard(wr, rd, 1) && !(rd + 1 <= wr);
    }
  }

  datatype TextResult = Text(bytes: seq<Byte>) | Refused | Throws

  /** A vector with some bytes overwritten from a position on. */
  function Patched(bytes: seq<Byte>, at: nat, src: seq<Byte>): (r: seq<Byte>)
    requires at + |src| <= |bytes|
    ensures |r| == |bytes|
  {
    bytes[..at] + src + bytes[at + |src|..]
  }

  lemma PatchOne(bytes: seq<Byte>, at: nat, src: seq<Byte>, i: nat)
    requires at + |src| <= |bytes| && i < |src|
    ensures Patched(bytes, at, src[..i])[at + i := src[i]] == Patched(bytes, at, src[..i + 1])
  {
  }

  class IOBuffer {
    var base: array<Byte>
    var rd: nat
    var wr: nat

    ghost predicate Valid()
      reads this
    {
      rd <= wr <= base.Length <= INT_MAX
    }

    /** The unread bytes. */
    ghost function Contents(): (s: seq<Byte>)
      requires Valid()
      reads this, base
      ensures |s| == wr - rd
    {
      base[rd..wr]
    }

    ghost function Room(): nat
      requires Valid()
      reads this
    {
      base.Length - wr
    }

    /** Any size is taken; the int cursors reach every byte exactly up to INT_MAX. */
    constructor (size: nat)
      ensures fresh(base) && base.Length == size && rd == wr == 0
      ensures Valid() <==> size <= INT_MAX
      ensures Valid() ==> Contents() == [] && Room() == size
    {
      base := new Byte[size](_ => 0);
      rd, wr := 0, 0;
    }

    /** memcpy, or a read(2), that stores bytes behind the write cursor and leaves the cursor where it is. */
    method Deposit(src: seq<Byte>)
      requires Valid() && |src| <= Room()
      modifies base
      ensures base[..] == Patched(old(base[..]), wr, src)
      ensures base[wr..wr + |src|] == src && Contents() == old(Contents())
    {
      ghost var before := base[..];
      var i := 0;
      while i < |src|
        invariant 0 <= i <= |src|
        invariant base[..] == Patched(before, wr, src[..i])
      {
        PatchOne(before, wr, src, i);
        base[wr + i] := src[i];
        assert base[..] == Patched(before, wr, src[..i])[wr + i := src[i]];
        i := i + 1;
      }
      assert src[..i] == src;
      assert base[wr..wr + i] == base[..][wr..wr + i];
      assert base[rd..wr] == base[..][rd..wr] == before[rd..wr];
    }

    method Append(src: seq<Byte>)
      requires Valid() && |src| <= Room()
      modifies this`wr, base
      ensures Valid() && wr == old(wr) + |src|
      ensures base[..] == Patched(old(base[..]), old(wr), src)
      ensures Contents() == old(Contents()) + src && Room() == old(Room()) - |src|
    {
      Deposit(src);
      wr := wr + |src|;
      assert base[rd..wr] == base[rd..old(wr)] + base[old(wr)..wr];
    }

    /** Write of an integer of n bytes. */
    method WriteInt(n: nat, v: int) returns (ret: int)
      requires Valid() && IsWidth(n) && InRange(n, v)
      modifies this`wr, base
      ensures Valid()
      ensures ret == (if old(Room()) >= n then n else -1)
      ensures ret != -1 ==> Contents() == old(Contents()) + WriteBytes(n, v) && Room() == old(Room()) - n
      ensures ret == -1 ==> wr == old(wr) && base[..] == old(base[..])
    {
      RoomGuardIff(base.Length, wr);
      if RoomGuard(base.Length, wr, n) {
        Append(WriteBytes(n, v));
        return n;
      }
      return -1;
    }

    /** Read of an integer of n bytes. */
    method ReadInt(n: nat) returns (ret: int, v: int)
      requires Valid() && IsWidth(n)
      modifies this`rd
      ensures Valid()
      ensures ret == (if |old(Contents())| >= n then n else -1)
      ensures ret != -1 ==>
        && v == ReadValue(n, old(Contents())[..n])
        && Contents() == old(Contents())[n..] && Room() == old(Room())
      ensures ret == -1 ==> rd == old(rd)
    {
      v := 0;
      DataGuardIff(wr, rd);
      if DataGuard(wr, rd, n) {
        assert base[rd..wr][..n] == base[rd..rd + n];
        v := ReadValue(n, base[rd..rd + n]);
        rd := rd + n;
        return n, v;
      }
      return -1, v;
    }

    /** Write of a string: the answer for "no room" is 0, which is also the answer for an empty string. */
    method WriteText(s: seq<Byte>) returns (ret: nat)
      requires Valid()
      modifies this`wr, base
      ensures Valid()
      ensures old(Room()) >= |s| ==>
        ret == |s| && Contents() == old(Contents()) + s && Room() == old(Room()) - |s|
      ensures old(Room()) < |s| ==> ret == 0 && wr == old(wr) && base[..] == old(base[..])
    {
      if RoomGuard(base.Length, wr, |s|) {
        Append(s);
        return |s|;
      }
      return 0;
    }

    /** Read of a string. The length test is signed, so a negative length passes it and the resize throws; an
        empty read throws when the read cursor stands at the end of the vector, where at() has no element. */
    method ReadText(len: int) returns (r: TextResult)
      requires Valid()
      modifies this`rd
      ensures Valid()
      ensures r.Refused? <==> len > |old(Contents())|
      ensures r.Throws? <==> len < 0 || (len == 0 && old(rd) == base.Length)
      ensures r.Text? ==>
        && r.bytes == old(Contents())[..len]
        && Contents() == old(Contents())[len..] && Room() == old(Room())
      ensures !r.Text? ==> rd == old(rd)
    {
      if len <= wr - rd {
        if len < 0 {
          return Throws;
        }
        if rd >= base.Length {
          return Throws;
        }
        assert base[rd..wr][..len] == base[rd..rd + len];
        r := Text(base[rd..rd + len]);
        rd := rd + len;
        return;
      }
      return Refused;
    }

    /** skip moves the write cursor over bytes that someone else stored behind it, as far as there is room. */
    method Skip(len: nat) returns (moved: nat)
      requires Valid()
      modifies this`wr
      ensures Valid()
      ensures moved == (if len < old(Room()) then len else old(Room()))
      ensures wr == old(wr) + moved && Contents() == old(Contents()) + base[old(wr)..wr]
    {
      var room := (base.Length - wr) % TWO_32;
      moved := if room < len then room else len;
      wr := wr + moved;
      assert base[rd..wr] == base[rd..old(wr)] + base[old(wr)..wr];
    }

    /** vector::resize. It keeps the cursors, so it keeps their order exactly when it does not cut below the write
        cursor; a negative size throws. */
    method Resize(size: int) returns (threw: bool)
      requires Valid() && size <= INT_MAX
      modifies this`base
      ensures threw <==> size < 0
      ensures threw ==> base == old(base)
      ensures !threw ==>
        && fresh(base) && base.Length == size
        && (forall i :: 0 <= i < size ==> base[i] == if i < old(base.Length) then old(base[i]) else 0)
      ensures Valid() <==> threw || wr <= size
      ensures Valid() && !threw ==> Contents() == old(Contents()) && Room() == size - wr
    {
      if size < 0 {
        return true;
      }
      var resized := new Byte[size](_ => 0);
      var i := 0;
      while i < size && i < base.Length
        invariant 0 <= i <= size && i <= base.Length
        invariant forall j :: 0 <= j < i ==> resized[j] == base[j]
        invariant forall j :: i <= j < size ==> resized[j] == 0
        modifies resized
      {
        resized[i] := base[i];
        i := i + 1;
      }
      base := resized;
      threw := false;
    }

    method Clear()
      modifies this
      ensures Valid() && fresh(base) && rd == 0 && Contents() == [] && Room() == 0
    {
      base := new Byte[0];
      rd, wr := 0, 0;
    }

    method Swap(other: IOBuffer)
      requires Valid() && other.Valid()
      modifies this, other
      ensures Valid() && other.Valid()
      ensures base == old(other.base) && rd == old(other.rd) && wr == old(other.wr)
      ensures other.base == old(base) && other.rd == old(rd) && other.wr == old(wr)
    {
      base, other.base := other.base, base;
      rd, other.rd := other.rd, rd;
      wr, other.wr := other.wr, wr;
    }
  }
}
