/** The UART receive ring of kernel/drivers/uart/uart_core.c: 128 slots addressed by
    free-running 32-bit indices, and the bounded FIFO it stands for. */
module RxRing {
  import opened Tasks

  const RX_BUF_SIZE := 128

  /** One slot always stays unused, so the ring holds at most 127 bytes. */
  const RX_CAP := RX_BUF_SIZE - 1

  /** The ideal FIFO: append while there is room, otherwise drop the byte. */
  function Accept(q: seq<Byte>, c: Byte): (r: seq<Byte>)
    ensures |q| <= RX_CAP ==> |r| <= RX_CAP
  {
    if |q| < RX_CAP then q + [c] else q
  }

  /** What a receive interrupt leaves in the ring after draining `bytes` from the chip. */
  function Drain(q: seq<Byte>, bytes: seq<Byte>): (r: seq<Byte>)
    ensures |q| <= RX_CAP ==> |r| <= RX_CAP
    decreases |bytes|
  {
    if bytes == [] then q else Drain(Accept(q, bytes[0]), bytes[1..])
  }

  /** The part of `bytes` that a ring already holding q takes in. */
  function Accepted(q: seq<Byte>, bytes: seq<Byte>): seq<Byte>
    requires |q| <= RX_CAP
  {
    if |bytes| <= RX_CAP - |q| then bytes else bytes[..RX_CAP - |q|]
  }

  /** Draining keeps a prefix of the burst and drops only what does not fit. */
  lemma {:induction false} DrainKeepsPrefix(q: seq<Byte>, bytes: seq<Byte>)
    requires |q| <= RX_CAP
    ensures Drain(q, bytes) == q + Accepted(q, bytes)
    decreases |bytes|
  {
    if bytes == [] {
    } else {
      var q1 := Accept(q, bytes[0]);
      DrainKeepsPrefix(q1, bytes[1..]);
      if |q| < RX_CAP {
        assert q1 + Accepted(q1, bytes[1..]) == q + ([bytes[0]] + Accepted(q1, bytes[1..]));
        assert [bytes[0]] + Accepted(q1, bytes[1..]) == Accepted(q, bytes);
      } else {
        assert Accepted(q1, bytes[1..]) == [];
        assert Accepted(q, bytes) == [];
      }
    }
  }

  /** The ring takes what fits into 127 bytes and drops the rest. */
  lemma DrainTakes127(q: seq<Byte>, bytes: seq<Byte>)
    requires |q| <= 127
    ensures Drain(q, bytes) == if |q + bytes| <= 127 then q + bytes else (q + bytes)[..127]
  {
    DrainKeepsPrefix(q, bytes);
  }

  /** x & (RX_BUF_SIZE - 1) for an unsigned x. */
  function Mask(x: int): nat {
    x % RX_BUF_SIZE
  }

  class Ring {
    const buf: array<Byte>
    var head: Word
    var tail: Word

    /** The number of stored bytes; unsigned subtraction, so it survives wrap-around. */
    ghost function Len(): nat
      reads this
    {
      (head - tail) % WORD
    }

    ghost predicate Valid()
      reads this
    {
      buf.Length == RX_BUF_SIZE && Len() <= RX_CAP
    }

    ghost function Contents(): (q: seq<Byte>)
      requires Valid()
      reads this, buf
      ensures |q| == Len()
    {
      seq(Len(), i requires 0 <= i < Len() && buf.Length == RX_BUF_SIZE reads this, buf => buf[SlotAt(tail, i)])
    }

    constructor ()
      ensures Valid() && fresh(buf)
      ensures Contents() == []
    {
      buf := new Byte[RX_BUF_SIZE](_ => 0);
      head, tail := 0, 0;
    }

    /** The masked full test and the unmasked empty test never disagree with the length. */
    lemma TestsAgree()
      requires Valid()
      ensures head == tail <==> Len() == 0
      ensures Mask((head + 1) % WORD) == Mask(tail) <==> Len() == RX_CAP
    {
      HeadOf(head, tail);
      SlotOf(tail, Len());
      FullTest(tail, Len());
    }

    method Push(c: Byte)
      requires Valid()
      modifies this, buf
      ensures Valid()
      ensures Contents() == Accept(old(Contents()), c)
    {
      TestsAgree();
      var next := (head + 1) % WORD;
      if Mask(next) != Mask(tail) {
        ghost var was, n := Contents(), Len();
        SlotOf(tail, n);
        HeadOf(head, tail);
        LenStep(head, tail);
        assert Mask(head) == SlotAt(tail, n);
        buf[Mask(head)] := c;
        head := next;
        forall i | 0 <= i < n
          ensures Contents()[i] == was[i]
        {
          SlotsDiffer(tail, i, n);
        }
        assert Contents() == was + [c];
      }
    }

    method IsEmpty() returns (e: bool)
      requires Valid()
      ensures e <==> Contents() == []
    {
      TestsAgree();
      e := head == tail;
    }

    /** Some(oldest byte), or None (the source's -1) when the ring is empty. */
    method Pop() returns (c: Option<Byte>)
      requires Valid()
      modifies this
      ensures Valid()
      ensures old(Contents()) == [] ==> c == None && Contents() == []
      ensures old(Contents()) != [] ==>
                c == Some(old(Contents())[0]) && Contents() == old(Contents())[1..]
    {
      TestsAgree();
      if head == tail {
        return None;
      }
      assert Contents()[0] == buf[SlotAt(tail, 0)];
      c := Some(buf[Mask(tail)]);
      ghost var was, t, n := Contents(), tail, Len();
      LenStep(head, tail);
      tail := (tail + 1) % WORD;
      forall i | 0 <= i < n - 1
        ensures Contents()[i] == was[i + 1]
      {
        SlotNext(t, i);
      }
      assert Contents() == was[1..];
    }
  }

  /** The slot i places after the tail. Wrapping at 2^32 does not disturb slot
      numbers, since 128 divides 2^32. */
  function SlotAt(tail: Word, i: nat): nat {
    Mask(tail + i)
  }

  lemma SlotOf(tail: Word, n: nat)
    ensures Mask((tail + n) % WORD) == SlotAt(tail, n)
    ensures Mask(((tail + n) % WORD + 1) % WORD) == SlotAt(tail, n + 1)
  {
    MaskOfWrapped(tail + n, 0);
    MaskOfWrapped(tail + n, 1);
    MaskOfWrapped((tail + n) % WORD + 1, 0);
  }

  lemma SlotNext(tail: Word, i: nat)
    ensures SlotAt((tail + 1) % WORD, i) == SlotAt(tail, i + 1)
  {
    MaskOfWrapped(tail + 1, i);
  }

  lemma MaskOfWrapped(x: nat, i: nat)
    ensures Mask(x % WORD + i) == Mask(x + i)
  {
    var turns := x / WORD * (WORD / RX_BUF_SIZE);
    assert x + i == x % WORD + i + RX_BUF_SIZE * turns;
  }

  /** The first 127 slots from the tail on never coincide with the next free one. */
  lemma SlotsDiffer(tail: Word, i: nat, n: nat)
    requires i < n <= RX_CAP
    ensures SlotAt(tail, i) != SlotAt(tail, n)
  {
  }

  lemma HeadOf(head: Word, tail: Word)
    ensures head == (tail + (head - tail) % WORD) % WORD
    ensures head == tail <==> (head - tail) % WORD == 0
  {
  }

  lemma FullTest(tail: Word, n: nat)
    requires n <= RX_CAP
    ensures SlotAt(tail, n + 1) == Mask(tail) <==> n == RX_CAP
  {
  }

  lemma LenStep(head: Word, tail: Word)
    ensures (head - tail) % WORD <= RX_CAP ==>
              ((head + 1) % WORD - tail) % WORD == (head - tail) % WORD + 1
    ensures (head - tail) % WORD > 0 ==>
              (head - (tail + 1) % WORD) % WORD == (head - tail) % WORD - 1
  {
  }
}
