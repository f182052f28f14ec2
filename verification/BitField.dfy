/** The visited set of a search: one bit per node, packed into bytes. */
module BitField {

  /** 1 << b for a bit of one byte. */
  function Mask(b: nat): (m: bv8)
    requires b < 8
  {
    if b == 0 then 0x01 else if b == 1 then 0x02 else if b == 2 then 0x04 else if b == 3 then 0x08
    else if b == 4 then 0x10 else if b == 5 then 0x20 else if b == 6 then 0x40 else 0x80
  }

  predicate Bit(byte: bv8, b: nat)
    requires b < 8
  {
    byte & Mask(b) != 0
  }

  /** Setting one bit changes that bit only. */
  lemma SetBit(byte: bv8, b: nat, c: nat)
    requires b < 8 && c < 8
    ensures Bit(byte | Mask(b), c) <==> b == c || Bit(byte, c)
  {
    var m, k := Mask(b), Mask(c);
    assert (byte | m) & k == (byte & k) | (m & k);
    if b == c {
      assert m & k == m;
    } else {
      MasksApart(b, c);
    }
  }

  lemma MasksApart(b: nat, c: nat)
    requires b < 8 && c < 8 && b != c
    ensures Mask(b) & Mask(c) == 0
  {
  }

  lemma NoBits(b: nat)
    requires b < 8
    ensures !Bit(0, b)
  {
  }

  lemma SameBit(i: nat, j: nat)
    requires i / 8 == j / 8
    ensures i % 8 == j % 8 <==> i == j
  {
  }

  class Bitfield {
    const bitsNeeded: nat
    const bytes: array<bv8>

    ghost predicate Valid() {
      bytes.Length == (bitsNeeded + 7) / 8
    }

    predicate Has(i: nat)
      requires Valid() && i < bitsNeeded
      reads bytes
    {
      Bit(bytes[i / 8], i % 8)
    }

    /** The nodes whose bit is set. */
    ghost function Marked(): (s: set<nat>)
      requires Valid()
      reads bytes
      ensures forall i :: i in s ==> i < bitsNeeded
    {
      set i | 0 <= i < bitsNeeded && Has(i)
    }

    constructor (bitsNeeded: nat)
      ensures Valid() && this.bitsNeeded == bitsNeeded && fresh(bytes)
      ensures Marked() == {}
    {
      this.bitsNeeded := bitsNeeded;
      this.bytes := new bv8[(bitsNeeded + 7) / 8](_ => 0);
      new;
      forall i | 0 <= i < bitsNeeded
        ensures !Has(i)
      {
        NoBits(i % 8);
      }
    }

    /** Whether the node was marked; it is afterwards. */
    method NodeVisited(node: nat) returns (was: bool)
      requires Valid() && node < bitsNeeded
      modifies bytes
      ensures was == (node in old(Marked()))
      ensures Marked() == old(Marked()) + {node}
    {
      hide Mask, Bit;
      var index := node / 8;
      var byte := bytes[index];
      was := Bit(byte, node % 8);
      bytes[index] := byte | Mask(node % 8);
      forall i | 0 <= i < bitsNeeded
        ensures Has(i) == (i == node || old(Has(i)))
      {
        if i / 8 == index {
          SetBit(byte, node % 8, i % 8);
          SameBit(i, node);
        }
      }
    }

    method Clear()
      requires Valid()
      modifies bytes
      ensures Marked() == {}
    {
      forall i | 0 <= i < bytes.Length {
        bytes[i] := 0;
      }
      forall i | 0 <= i < bitsNeeded
        ensures !Has(i)
      {
        NoBits(i % 8);
      }
    }

    /** A copy of the marks, sharing nothing with the original. */
    method Copy() returns (copy: Bitfield)
      requires Valid()
      ensures fresh(copy) && fresh(copy.bytes) && copy.Valid() && copy.bitsNeeded == bitsNeeded
      ensures copy.Marked() == Marked()
    {
      copy := new Bitfield(bitsNeeded);
      var i := 0;
      while i * 8 < bitsNeeded
        invariant 0 <= i <= bytes.Length
        invariant copy.bytes[..i] == bytes[..i] && bytes[..] == old(bytes[..])
      {
        copy.bytes[i] := bytes[i];
        i := i + 1;
      }
      assert copy.bytes[..] == bytes[..];
      forall j | 0 <= j < bitsNeeded
        ensures copy.Has(j) == Has(j)
      {
        assert copy.bytes[..][j / 8] == bytes[..][j / 8];
      }
    }
  }
}
