/** Drive RAM as the host sees it: contiguous reads, and writes of which any prefix may land. */
module Ram {
  import opened Bytes

  type Ram = nat -> byte

  function Get(ram: Ram, at: nat): byte { ram(at) }

  function ReadAt(ram: Ram, at: nat, n: nat): (s: seq<byte>)
    ensures |s| == n && forall i: nat :: i < n ==> s[i] == Get(ram, at + i)
  {
    seq<byte>(n, i requires 0 <= i < n => Get(ram, at + i))
  }

  function Put(ram: Ram, at: nat, bytes: seq<byte>): (r: Ram)
    ensures forall a: nat {:trigger Get(r, a)} ::
              Get(r, a) == if at <= a < at + |bytes| then bytes[a - at] else Get(ram, a)
  {
    (a: nat) => if at <= a < at + |bytes| then bytes[a - at] else ram(a)
  }

  predicate Apart(at: nat, n: nat, at': nat, n': nat) { at + n <= at' || at' + n' <= at }

  lemma ReadBack(ram: Ram, at: nat, bytes: seq<byte>)
    ensures ReadAt(Put(ram, at, bytes), at, |bytes|) == bytes
  {
  }

  lemma ReadElsewhere(ram: Ram, at: nat, bytes: seq<byte>, at': nat, n: nat)
    requires Apart(at, |bytes|, at', n)
    ensures ReadAt(Put(ram, at, bytes), at', n) == ReadAt(ram, at', n)
  {
  }

  /** Writing part of what is already there changes nothing. */
  lemma WriteSame(ram: Ram, at: nat, bytes: seq<byte>, k: nat)
    requires k <= |bytes| && ReadAt(ram, at, |bytes|) == bytes
    ensures ReadAt(Put(ram, at, bytes[..k]), at, |bytes|) == bytes
  {
    forall i | 0 <= i < |bytes| ensures Get(Put(ram, at, bytes[..k]), at + i) == bytes[i] {
      assert ReadAt(ram, at, |bytes|)[i] == bytes[i];
    }
  }
}
