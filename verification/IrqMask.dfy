/**
 * The software interrupt chip of the timer (lkml/dmtimer/irq.c): a 32-bit mask of enabled lines
 * and the numbering of four lines. An unsigned int used as a mask is a word of 32 bits.
 */
module IrqMask {
  import opened Arithmetic

  type Word = w: seq<bool> | |w| == 32 witness seq(32, i => false)

  const ZERO_WORD: Word := seq(32, i => false)

  /** `m & ~(1 << line)`, line 19. */
  function ClearBit(m: Word, line: nat): Word {
    seq(32, i requires 0 <= i < 32 => m[i] && i != line)
  }

  /** `m | ~(1 << line)`, line 28. */
  function OrComplement(m: Word, line: nat): Word {
    seq(32, i requires 0 <= i < 32 => m[i] || i != line)
  }

  /** `m | (1 << line)`: what unmasking one line means. */
  function SetBit(m: Word, line: nat): Word {
    seq(32, i requires 0 <= i < 32 => m[i] || i == line)
  }

  /** A call of the chip on one of its lines. */
  datatype Op = Mask(line: nat) | Unmask(line: nat)

  /** The mask after a history of calls, as the code computes it. */
  function AsCoded(m: Word, ops: seq<Op>): Word {
    if ops == [] then m
    else
      var before, op := AsCoded(m, ops[..|ops| - 1]), ops[|ops| - 1];
      if op.Mask? then ClearBit(before, op.line) else OrComplement(before, op.line)
  }

  /** The mask after a history of calls, with a line's own bit set when it is unmasked. */
  function AsIntended(m: Word, ops: seq<Op>): Word {
    if ops == [] then m
    else
      var before, op := AsIntended(m, ops[..|ops| - 1]), ops[|ops| - 1];
      if op.Mask? then ClearBit(before, op.line) else SetBit(before, op.line)
  }

  /** The lines enabled by a history, as a set. */
  function EnabledLines(ops: seq<Op>): set<nat> {
    if ops == [] then {}
    else
      var before, op := EnabledLines(ops[..|ops| - 1]), ops[|ops| - 1];
      if op.Mask? then before - {op.line} else before + {op.line}
  }

  // ---------------------------------------------------------------- history in closed form

  /** Line `j` is masked at no position from `i` on. */
  ghost predicate Unmolested(ops: seq<Op>, i: nat, j: nat) {
    forall k | i <= k < |ops| :: ops[k] != Mask(j)
  }

  /** Some call unmasks a line other than `j`, and `j` is not masked after it. */
  ghost predicate RaisedByOther(ops: seq<Op>, j: nat) {
    exists i: nat :: i < |ops| && ops[i].Unmask? && ops[i].line != j && Unmolested(ops, i + 1, j)
  }

  /** Some call unmasks `j`, and `j` is not masked after it. */
  ghost predicate RaisedByItself(ops: seq<Op>, j: nat) {
    exists i: nat :: i < |ops| && ops[i] == Unmask(j) && Unmolested(ops, i + 1, j)
  }

  lemma UnmolestedSnoc(ops: seq<Op>, i: nat, j: nat)
    requires ops != [] && i < |ops|
    ensures Unmolested(ops, i, j) <==> Unmolested(ops[..|ops| - 1], i, j) && ops[|ops| - 1] != Mask(j)
  {
  }

  lemma RaisedByOtherSnoc(ops: seq<Op>, j: nat)
    requires ops != []
    ensures var last := ops[|ops| - 1];
            RaisedByOther(ops, j) <==>
              (last.Unmask? && last.line != j) || (RaisedByOther(ops[..|ops| - 1], j) && last != Mask(j))
  {
  }

  lemma RaisedByItselfSnoc(ops: seq<Op>, j: nat)
    requires ops != []
    ensures var last := ops[|ops| - 1];
            RaisedByItself(ops, j) <==> last == Unmask(j) || (RaisedByItself(ops[..|ops| - 1], j) && last != Mask(j))
  {
  }

  /**
   * The code, in closed form: a bit is set exactly when another line was unmasked, or it was set
   * at the start, and the line was not masked since. Unmasking a line never sets its own bit.
   */
  lemma {:induction false} CodedMaskHistory(m: Word, ops: seq<Op>, j: nat)
    requires j < 32
    ensures AsCoded(m, ops)[j] <==> RaisedByOther(ops, j) || (m[j] && Unmolested(ops, 0, j))
  {
    if ops != [] {
      CodedMaskHistory(m, ops[..|ops| - 1], j);
      RaisedByOtherSnoc(ops, j);
      UnmolestedSnoc(ops, 0, j);
    }
  }

  /** The intention, in closed form: the same with the line itself in place of the others. */
  lemma {:induction false} IntendedMaskHistory(m: Word, ops: seq<Op>, j: nat)
    requires j < 32
    ensures AsIntended(m, ops)[j] <==> RaisedByItself(ops, j) || (m[j] && Unmolested(ops, 0, j))
  {
    if ops != [] {
      IntendedMaskHistory(m, ops[..|ops| - 1], j);
      RaisedByItselfSnoc(ops, j);
      UnmolestedSnoc(ops, 0, j);
    }
  }

  /** The intended mask is the set of enabled lines. */
  lemma {:induction false} IntendedRefinesSet(ops: seq<Op>, j: nat)
    requires j < 32
    ensures AsIntended(ZERO_WORD, ops)[j] <==> j in EnabledLines(ops)
  {
    if ops != [] {
      IntendedRefinesSet(ops[..|ops| - 1], j);
    }
  }

  // ---------------------------------------------------------------- code against intention

  /** One unmask call does what is meant exactly when every line is already enabled. */
  lemma UnmaskIsRightIff(m: Word, line: nat)
    requires line < 32
    ensures OrComplement(m, line) == SetBit(m, line) <==> forall i | 0 <= i < 32 :: m[i]
  {
    var c, s := OrComplement(m, line), SetBit(m, line);
    if c == s {
      forall i | 0 <= i < 32 ensures m[i] {
        assert c[i] == s[i];
      }
    }
    if forall i | 0 <= i < 32 :: m[i] {
      assert c == s;
    }
  }

  /** A line that only its own unmask calls name is never enabled. */
  lemma UnmaskingALineAloneNeverEnablesIt(m: Word, ops: seq<Op>, j: nat)
    requires j < 32 && !m[j]
    requires forall i | 0 <= i < |ops| && ops[i].Unmask? :: ops[i].line == j
    ensures !AsCoded(m, ops)[j]
  {
  }

  /** With masking only, nothing is ever enabled, in either form. */
  lemma {:induction false} MaskingOnly(ops: seq<Op>)
    requires forall i | 0 <= i < |ops| :: ops[i].Mask?
    ensures AsCoded(ZERO_WORD, ops) == ZERO_WORD && AsIntended(ZERO_WORD, ops) == ZERO_WORD
  {
    if ops != [] {
      MaskingOnly(ops[..|ops| - 1]);
      assert ClearBit(ZERO_WORD, ops[|ops| - 1].line) == ZERO_WORD;
    }
  }

  lemma FirstUnmask(ops: seq<Op>, i: nat) returns (k: nat)
    requires i < |ops| && ops[i].Unmask?
    ensures k < |ops| && ops[k].Unmask? && forall j | 0 <= j < k :: ops[j].Mask?
  {
    k := 0;
    while ops[k].Mask?
      invariant k <= i && forall j | 0 <= j < k :: ops[j].Mask?
      decreases i - k
    {
      k := k + 1;
    }
  }

  /**
   * From the zeroed mask of a loaded module, code and intention agree after every call of a
   * history exactly when the history unmasks nothing.
   */
  lemma AgreeThroughoutIff(ops: seq<Op>)
    requires forall i | 0 <= i < |ops| :: ops[i].line < 32
    ensures (forall k: nat | k <= |ops| :: AsCoded(ZERO_WORD, ops[..k]) == AsIntended(ZERO_WORD, ops[..k]))
       <==> forall i | 0 <= i < |ops| :: ops[i].Mask?
  {
    if forall i | 0 <= i < |ops| :: ops[i].Mask? {
      forall k: nat | k <= |ops| ensures AsCoded(ZERO_WORD, ops[..k]) == AsIntended(ZERO_WORD, ops[..k]) {
        MaskingOnly(ops[..k]);
      }
    } else {
      var i :| 0 <= i < |ops| && ops[i].Unmask?;
      var k := FirstUnmask(ops, i);
      MaskingOnly(ops[..k]);
      assert ops[..k + 1][..k] == ops[..k];
      UnmaskIsRightIff(ZERO_WORD, ops[k].line);
      assert !ZERO_WORD[0];
      assert AsCoded(ZERO_WORD, ops[..k + 1]) != AsIntended(ZERO_WORD, ops[..k + 1]);
    }
  }

  /** A run that tells them apart: unmasking line 2, the one the timer uses, enables all but line 2. */
  lemma SeparatingRun()
    ensures var coded, intended := AsCoded(ZERO_WORD, [Unmask(2)]), AsIntended(ZERO_WORD, [Unmask(2)]);
            forall i | 0 <= i < 32 :: (intended[i] <==> i == 2) && (coded[i] <==> i != 2)
  {
  }

  // ---------------------------------------------------------------- the code, in place

  /** `n` consecutive irq numbers in unsigned arithmetic. */
  function LinesFrom(base: nat, n: nat): seq<nat> {
    seq(n, i requires 0 <= i < n => (base + i) % U32)
  }

  class IrqChip {
    var enabledMask: Word
    var base: nat
    var lines: seq<nat>    // irq numbers given this chip and handle_simple_irq
    ghost var history: seq<Op>

    ghost predicate Valid()
      reads this
    {
      base < U32 && enabledMask == AsCoded(ZERO_WORD, history)
    }

    /** The zeroed static structure. */
    constructor ()
      ensures Valid() && history == [] && lines == []
    {
      enabledMask, base, lines, history := ZERO_WORD, 0, [], [];
    }

    /** dmtimer_irqmask. The shift needs the irq to lie in the word above base. */
    method IrqMask(irq: nat)
      requires Valid() && base <= irq < base + 32
      modifies this`enabledMask, this`history
      ensures Valid() && history == old(history) + [Mask(irq - base)]
      ensures !enabledMask[irq - base]
      ensures forall i | 0 <= i < 32 && i != irq - base :: enabledMask[i] == old(enabledMask)[i]
    {
      enabledMask := ClearBit(enabledMask, irq - base);
      assert (history + [Mask(irq - base)])[..|history|] == history;
      history := history + [Mask(irq - base)];
    }

    /** dmtimer_irqunmask, with the complement of line 28. */
    method IrqUnmask(irq: nat)
      requires Valid() && base <= irq < base + 32
      modifies this`enabledMask, this`history
      ensures Valid() && history == old(history) + [Unmask(irq - base)]
      ensures enabledMask[irq - base] == old(enabledMask)[irq - base]
      ensures forall i | 0 <= i < 32 && i != irq - base :: enabledMask[i]
    {
      enabledMask := OrComplement(enabledMask, irq - base);
      assert (history + [Unmask(irq - base)])[..|history|] == history;
      history := history + [Unmask(irq - base)];
    }

    /**
     * dmtimer_irq_alloc_chip for any answer of irq_alloc_descs. `base` is unsigned, so the test
     * for a negative number never succeeds: a failed allocation is not reported and four lines
     * are set up all the same, at the error code taken modulo 2^32.
     */
    method AllocChip(ret: int) returns (reported: bool)
      modifies this`base, this`lines
      ensures !reported && base == ret % U32 && ChipIsSetUp()
      ensures lines == old(lines) + [base, (base + 1) % U32, (base + 2) % U32, (base + 3) % U32]
    {
      base := ret % U32;
      reported := base < 0;
      if reported {
        return;
      }
      var i := 0;
      while i < 4
        invariant 0 <= i <= 4 && base == ret % U32
        invariant lines == old(lines) + LinesFrom(base, i)
      {
        assert LinesFrom(base, i + 1) == LinesFrom(base, i) + [(base + i) % U32];
        lines := lines + [(base + i) % U32];
        i := i + 1;
      }
    }

    /** The last four lines set up are those from `base` on. */
    ghost predicate ChipIsSetUp()
      reads this`lines, this`base
    {
      && base < U32 && |lines| >= 4
      && lines[|lines| - 4..] == [base, (base + 1) % U32, (base + 2) % U32, (base + 3) % U32]
    }

    /**
     * timer_get_irq: the unsigned sum returned as an int. On a chip that is set up, number `k` of
     * the four names line `k`; the timer's handler (lkml/dmtimer/dmtimer.c, line 285) uses line 2.
     */
    method GetIrq(nested: int) returns (irq: int)
      requires Valid()
      ensures -0x8000_0000 <= irq < 0x8000_0000 && irq % U32 == (base + nested) % U32
      ensures ChipIsSetUp() && 0 <= nested < 4 ==> irq % U32 == lines[|lines| - 4 + nested] && irq % U32 in lines
    {
      assert ChipIsSetUp() && 0 <= nested < 4 ==> lines[|lines| - 4..][nested] == (base + nested) % U32;
      var u := (base + nested) % U32;
      irq := if u < 0x8000_0000 then u else u - U32;
    }
  }
}
